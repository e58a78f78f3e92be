/** Message ports: a bounded queue with blocking senders and receivers, which can
    be reset or deleted while processes wait on it. */
module Ports {
  import opened PortNodes
  import opened PortSync
  import opened PortRun

  function Heads(ports: seq<Port>): (h: seq<int>)
    ensures |h| == |ports| && forall i :: 0 <= i < |ports| ==> h[i] == ports[i].head
  {
    seq(|ports|, i requires 0 <= i < |ports| => ports[i].head)
  }

  function Tails(ports: seq<Port>): (t: seq<int>)
    ensures |t| == |ports| && forall i :: 0 <= i < |ports| ==> t[i] == ports[i].tail
  {
    seq(|ports|, i requires 0 <= i < |ports| => ports[i].tail)
  }

  function Lens(queues: seq<seq<nat>>): (l: seq<nat>)
    ensures |l| == |queues| && forall i :: 0 <= i < |queues| ==> l[i] == |queues[i]|
  {
    seq(|queues|, i requires 0 <= i < |queues| => |queues[i]|)
  }

  /** A port has a queue while it is allocated, and until a clear took it. */
  predicate HasQueue(port: Port, st: Stage) {
    port.state == PtAlloc || (port.state == PtLimbo && st.Stage? && st.phase == 0)
  }

  function Alive(ports: seq<Port>, stages: seq<Stage>): (a: seq<bool>)
    requires |ports| == |stages|
    ensures |a| == |ports| && forall i :: 0 <= i < |ports| ==> a[i] == HasQueue(ports[i], stages[i])
  {
    seq(|ports|, i requires 0 <= i < |ports| => HasQueue(ports[i], stages[i]))
  }

  /** A reset port has no links left once its queue was taken. */
  predicate Cleaned(ports: seq<Port>, stages: seq<Stage>) {
    |ports| == |stages| &&
    forall i :: 0 <= i < |ports| && stages[i].Stage? && stages[i].to == PtAlloc && stages[i].phase >= 1 ==>
      ports[i].head == NIL && ports[i].tail == NIL
  }

  lemma CleanedUpdate(ports: seq<Port>, stages: seq<Stage>, i: nat, port: Port)
    requires Cleaned(ports, stages) && i < |ports| && stages[i] == Steady
    ensures Cleaned(ports[i := port], stages)
  {
  }

  lemma AliveUpdate(ports: seq<Port>, stages: seq<Stage>, i: nat, port: Port)
    requires |ports| == |stages| && i < |ports| && port.state == ports[i].state
    ensures Alive(ports[i := port], stages) == Alive(ports, stages)
  {
  }

  /** A clear reaches a later phase. */
  lemma CleanedClear(ports: seq<Port>, stages: seq<Stage>, i: nat, port: Port, st: Stage)
    requires Cleaned(ports, stages) && i < |ports| && st.Stage?
    requires st.to == PtAlloc ==> port.head == NIL && port.tail == NIL
    ensures Cleaned(ports[i := port], stages[i := st])
  {
  }

  lemma AliveClear(ports: seq<Port>, stages: seq<Stage>, i: nat, port: Port, st: Stage)
    requires |ports| == |stages| && i < |ports| && port.state == PtLimbo && st.Stage? && st.phase >= 1
    ensures Alive(ports[i := port], stages[i := st]) == Alive(ports, stages)[i := false]
  {
  }

  /** A port without a queue may have any links. */
  lemma LinksOfDead(next: seq<int>, own: seq<int>, ptfree: int, free: seq<nat>, heads: seq<int>, tails: seq<int>,
                    live: seq<bool>,
                    queues: seq<seq<nat>>, i: nat)
    requires NodesOk(next, own, ptfree, free, heads, tails, live, queues) && i < NPORTS && !live[i]
    ensures NodesOk(next, own, ptfree, free, heads[i := NIL], tails[i := NIL], live, queues)
  {
    hide Parted;
  }

  lemma NodeLinked(next: seq<int>, head: int, list: seq<nat>, k: nat)
    requires Chain(next, head, list) && k < |list|
    ensures Linked(next, list, k)
  {
  }

  /** The messages in the nodes of a list. */
  function Messages(ptmsg: seq<umsg32>, list: seq<nat>): (m: seq<umsg32>)
    ensures |m| == |list|
    ensures forall k :: 0 <= k < |list| && list[k] < |ptmsg| ==> m[k] == ptmsg[list[k]]
  {
    seq(|list|, k requires 0 <= k < |list| => if list[k] < |ptmsg| then ptmsg[list[k]] else 0)
  }

  /** What was sent to a port was received or is still queued, in the same order. */
  ghost predicate Told(sent: seq<seq<umsg32>>, got: seq<seq<umsg32>>, queues: seq<seq<nat>>, ptmsg: seq<umsg32>) {
    |sent| == |got| == |queues| == NPORTS &&
    forall i :: 0 <= i < NPORTS ==> sent[i] == got[i] + Messages(ptmsg, queues[i])
  }

  lemma ToldTake(sent: seq<seq<umsg32>>, got: seq<seq<umsg32>>, queues: seq<seq<nat>>, ptmsg: seq<umsg32>, i: nat)
    requires Told(sent, got, queues, ptmsg) && i < NPORTS && queues[i] != [] && queues[i][0] < |ptmsg|
    ensures |got[i]| < |sent[i]| && ptmsg[queues[i][0]] == sent[i][|got[i]|]
    ensures Told(sent, got[i := got[i] + [ptmsg[queues[i][0]]]], queues[i := queues[i][1..]], ptmsg)
  {
    assert Messages(ptmsg, queues[i]) == [ptmsg[queues[i][0]]] + Messages(ptmsg, queues[i][1..]);
  }

  lemma ToldPut(sent: seq<seq<umsg32>>, got: seq<seq<umsg32>>, own: seq<int>, free: seq<nat>, queues: seq<seq<nat>>,
                ptmsg: seq<umsg32>, i: nat, n: int, msg: umsg32)
    requires Told(sent, got, queues, ptmsg) && |own| == |ptmsg| && Parted(own, free, queues) && free != []
    requires n == free[0] && n < |own| && i < NPORTS
    ensures Told(sent[i := sent[i] + [msg]], got, queues[i := queues[i] + [free[0]]], ptmsg[n := msg])
  {
    hide Parted;
    MessagesApart(ptmsg, own, free, queues, n, msg);
  }

  lemma ToldClear(sent: seq<seq<umsg32>>, got: seq<seq<umsg32>>, queues: seq<seq<nat>>, queues2: seq<seq<nat>>,
      ptmsg: seq<umsg32>, i: nat)
    requires Told(sent, got, queues, ptmsg) && i < NPORTS && queues2 == queues[i := []]
    ensures Told(sent[i := []], got[i := []], queues2, ptmsg)
  {
  }

  /** Writing the first free node changes no queued message. */
  lemma MessagesApart(ptmsg: seq<umsg32>, own: seq<int>, free: seq<nat>, queues: seq<seq<nat>>, n: int, msg: umsg32)
    requires |own| == |ptmsg| && Parted(own, free, queues) && free != [] && n == free[0] && n < |own|
    ensures forall j :: 0 <= j < NPORTS ==> Messages(ptmsg[n := msg], queues[j]) == Messages(ptmsg, queues[j])
    ensures forall j :: 0 <= j < NPORTS ==>
              Messages(ptmsg[n := msg], queues[j] + [free[0]]) == Messages(ptmsg, queues[j]) + [msg]
  {
    assert Owned(own, Held(free, queues, FREE), FREE);
    forall j | 0 <= j < NPORTS
      ensures Messages(ptmsg[n := msg], queues[j]) == Messages(ptmsg, queues[j])
      ensures Messages(ptmsg[n := msg], queues[j] + [free[0]]) == Messages(ptmsg, queues[j]) + [msg]
    {
      assert Owned(own, Held(free, queues, j), j);
    }
  }

  lemma {:induction false} LensTotal(queues: seq<seq<nat>>)
    ensures Total(Lens(queues)) == Sum(queues)
  {
    if |queues| > 0 {
      LensTotal(queues[..|queues| - 1]);
      assert Lens(queues)[..|queues| - 1] == Lens(queues[..|queues| - 1]);
    }
  }

  /** The table without the links of the queues. */
  function Bare(ports: seq<Port>): (b: seq<Port>)
    ensures |b| == |ports| && forall i :: 0 <= i < |ports| ==> b[i] == ports[i].(head := NIL, tail := NIL)
  {
    seq(|ports|, i requires 0 <= i < |ports| => ports[i].(head := NIL, tail := NIL))
  }

  lemma BareUpdate(ports: seq<Port>, i: nat, port: Port)
    requires i < |ports|
    ensures Bare(ports[i := port]) == Bare(ports)[i := port.(head := NIL, tail := NIL)]
  {
  }

  lemma LinksUpdate(ports: seq<Port>, i: nat, head: int, tail: int)
    requires i < |ports|
    ensures Bare(ports[i := ports[i].(head := head, tail := tail)]) == Bare(ports)
    ensures Heads(ports[i := ports[i].(head := head, tail := tail)]) == Heads(ports)[i := head]
    ensures Tails(ports[i := ports[i].(head := head, tail := tail)]) == Tails(ports)[i := tail]
  {
  }

  class PortSystem {
    const porttab: array<Port>
    const semtab: array<Sem>
    const pcs: array<Pc>
    const ptnext: array<int>
    const ptmsg: array<umsg32>
    var ptfree: int
    var ptnextid: nat
    var nextsem: nat

    ghost var own: seq<int>
    ghost var free: seq<nat>
    ghost var queues: seq<seq<nat>>
    ghost var uses: seq<Use>
    ghost var stages: seq<Stage>
    ghost var cap: seq<nat>
    ghost var lostS: seq<nat>
    ghost var lostR: seq<nat>
    /** What was sent to the present incarnation of each port, and received. */
    ghost var sent: seq<seq<umsg32>>
    ghost var got: seq<seq<umsg32>>

    predicate Shape() {
      porttab.Length == NPORTS && semtab.Length == NSEM && pcs.Length == NPROC && ptnext.Length == ptmsg.Length
    }

    ghost function Now(): View
      reads `uses, `stages, `queues, `cap, `lostS, `lostR, porttab, semtab, pcs
    {
      View(Bare(porttab[..]), semtab[..], pcs[..], uses, stages, Lens(queues), cap, lostS, lostR)
    }

    /** The ports with their histories, as a state of the runs. */
    ghost function Sys(): State
      reads `uses, `stages, `queues, `cap, `lostS, `lostR, `sent, `got, porttab, semtab, pcs
    {
      State(Now(), sent, got, ptnext.Length)
    }

    ghost predicate Synced()
      reads `uses, `stages, `queues, `cap, `lostS, `lostR, porttab, semtab, pcs
    {
      Inv(Now())
    }

    ghost predicate Nodes()
      reads `ptfree, `own, `free, `queues, `stages, porttab, ptnext
    {
      |stages| == porttab.Length && Cleaned(porttab[..], stages) &&
      NodesOk(ptnext[..], own, ptfree, free, Heads(porttab[..]), Tails(porttab[..]), Alive(porttab[..], stages), queues)
    }

    /** What was sent was received or is still queued, in the same order. */
    ghost predicate History()
      reads `sent, `got, `queues, ptmsg
    {
      Told(sent, got, queues, ptmsg[..])
    }

    ghost predicate Valid()
      reads this, porttab, semtab, pcs, ptnext, ptmsg
    {
      Shape() && Synced() && Nodes() && History() && ptnextid < NPORTS && nextsem < NSEM
    }

    // ----------------------------------------------------------- semaphores

    /** wait by process p inside ptsend or ptrecv. */
    method Wait(p: nat, send: bool, i: nat, msg: umsg32) returns (r: Outcome)
      requires Valid() && p < NPROC && pcs[p] == Idle && i < NPORTS && porttab[i].state == PtAlloc
      modifies semtab, pcs
      ensures Valid()
      ensures r == SysErr <==> SemId(porttab[i], send) < 0
      ensures r == SysErr ==> semtab[..] == old(semtab[..]) && pcs[..] == old(pcs[..])
      ensures r != SysErr ==> Now() == AfterWait(old(Now()), p, i, send, msg)
      ensures r != SysErr ==> pcs[..] == old(pcs[..])[p := Using(send, i, porttab[i].seqno, msg, r == Ok)]
      ensures r == Ok || r == Blocks || r == SysErr
      ensures r != SysErr ==> (r == Ok <==> old(SemAt(Now(), i, send)).count > 0)
    {
      hide Inv, NodesOk;
      var sid := SemId(porttab[i], send);
      if sid < 0 {
        return SysErr;
      }
      WaitKeeps(Now(), p, i, send, msg);
      ghost var next := AfterWait(Now(), p, i, send, msg);
      ghost var sems := semtab[..];
      semtab[sid] := semtab[sid].(count := semtab[sid].count - 1);
      var seqno := porttab[i].seqno;
      if semtab[sid].count < 0 {
        pcs[p] := Using(send, i, seqno, msg, false);
        semtab[sid] := semtab[sid].(waiters := semtab[sid].waiters + [p]);
        r := Blocks;
      } else {
        pcs[p] := Using(send, i, seqno, msg, true);
        r := Ok;
      }
      assert semtab[..] == sems[sid := Waited(sems[sid], p)];
      assert Now() == next;
    }

    /** signal on a semaphore of port i. */
    method Signal(i: nat, send: bool)
      requires Shape() && i < NPORTS && Sizes(Now()) && Shaped(Now(), i) && porttab[i].state == PtAlloc
      modifies semtab, pcs
      ensures Now() == AfterSignal(old(Now()), i, send)
    {
      var sid := SemId(porttab[i], send);
      if sid < 0 {
        return;
      }
      assert Has(Now(), i, send) && HalfOk(Now(), i, send);
      ghost var sems, next := semtab[..], AfterSignal(Now(), i, send);
      semtab[sid] := semtab[sid].(count := semtab[sid].count + 1);
      if semtab[sid].count - 1 < 0 {
        var w := semtab[sid].waiters[0];
        assert Blocked(pcs[..], w, i, send);
        semtab[sid] := semtab[sid].(waiters := semtab[sid].waiters[1..]);
        pcs[w] := pcs[w].(granted := true);
      }
      assert Now() == next;
    }

    // ---------------------------------------------------------- messages

    /** Move a node from the free list to the end of port i's queue. */
    method PutMessage(i: nat, msg: umsg32)
      requires Shape() && Nodes() && History() && i < NPORTS && porttab[i].state == PtAlloc && stages[i] == Steady
      requires free != []
      modifies porttab, ptnext, ptmsg, `ptfree, `own, `free, `queues, `sent
      ensures Nodes() && History()
      ensures Bare(porttab[..]) == old(Bare(porttab[..]))
      ensures queues == old(queues)[i := old(queues)[i] + [old(free)[0]]] && free == old(free)[1..]
      ensures sent == old(sent)[i := old(sent)[i] + [msg]]
    {
      hide Parted, Wired, Cleaned, Alive, Heads, Tails, Bare;
      ghost var next, heads, tails, list := ptnext[..], Heads(porttab[..]), Tails(porttab[..]), queues[i];
      Deposit(ptnext[..], own, ptfree, free, heads, tails, Alive(porttab[..], stages), queues, i);
      ToldPut(sent, got, own, free, queues, ptmsg[..], i, ptfree, msg);
      assert |sent| == |queues| == NPORTS;
      hide Told;
      var msgnode := ptfree;
      ptfree := ptnext[msgnode];
      ptnext[msgnode] := NIL;
      ptmsg[msgnode] := msg;
      var tailnode := porttab[i].tail;
      ghost var ports := porttab[..];
      if tailnode == NIL {
        LinksUpdate(ports, i, msgnode, msgnode);
        porttab[i] := porttab[i].(tail := msgnode, head := msgnode);
      } else {
        LinksUpdate(ports, i, porttab[i].head, msgnode);
        ptnext[tailnode] := msgnode;
        porttab[i] := porttab[i].(tail := msgnode);
      }
      assert ptnext[..] == SendNext(next, msgnode, tailnode);
      AliveUpdate(ports, stages, i, porttab[i]);
      CleanedUpdate(ports, stages, i, porttab[i]);
      assert porttab[..] == ports[i := porttab[i]];
      assert Heads(porttab[..]) == if list == [] then heads[i := msgnode] else heads;
      own, free, queues := own[msgnode := i], free[1..], queues[i := queues[i] + [free[0]]];
      sent := sent[i := sent[i] + [msg]];
    }

    /** Move the first node of port i's queue to the front of the free list. */
    method TakeMessage(i: nat) returns (msg: umsg32)
      requires Shape() && Nodes() && History() && i < NPORTS && porttab[i].state == PtAlloc && stages[i] == Steady
      requires queues[i] != []
      modifies porttab, ptnext, `ptfree, `own, `free, `queues, `got
      ensures Nodes() && History()
      ensures Bare(porttab[..]) == old(Bare(porttab[..])) && queues == old(queues)[i := old(queues)[i][1..]]
      ensures |old(got)[i]| < |sent[i]| && msg == sent[i][|old(got)[i]|] && got == old(got)[i := old(got)[i] + [msg]]
    {
      hide Parted, Wired, Cleaned, Alive, Bare, Linked, Chain;
      ghost var next, heads, tails, ports, list := ptnext[..], Heads(porttab[..]), Tails(porttab[..]), porttab[..],
        queues[i];
      Take(ptnext[..], own, ptfree, free, heads, tails, Alive(porttab[..], stages), queues, i);
      ToldTake(sent, got, queues, ptmsg[..], i);
      assert |got| == |queues| == NPORTS;
      hide Told;
      var msgnode := porttab[i].head;
      msg := ptmsg[msgnode];
      if porttab[i].head == porttab[i].tail {
        LinksUpdate(ports, i, NIL, NIL);
        porttab[i] := porttab[i].(head := NIL, tail := NIL);
      } else {
        LinksUpdate(ports, i, ptnext[msgnode], porttab[i].tail);
        porttab[i] := porttab[i].(head := ptnext[msgnode]);
      }
      ptnext[msgnode] := ptfree;
      ptfree := msgnode;
      AliveUpdate(ports, stages, i, porttab[i]);
      CleanedUpdate(ports, stages, i, porttab[i]);
      assert porttab[..] == ports[i := porttab[i]];
      assert ptnext[..] == next[msgnode := old(ptfree)];
      own, free, queues := own[msgnode := FREE], [list[0]] + free, queues[i := list[1..]];
      got := got[i := got[i] + [msg]];
    }

    // ------------------------------------------------------------ the calls

    /** The incarnation of the port that process p saw is gone. */
    ghost predicate Gone(p: nat)
      reads pcs, porttab
    {
      p < pcs.Length && pcs[p].Using? && pcs[p].port < porttab.Length &&
      (porttab[pcs[p].port].state != PtAlloc || porttab[pcs[p].port].seqno != pcs[p].seqno)
    }

    /** Everything but the place of process p is as it was. */
    twostate predicate OnlyLeft(p: nat)
      reads this, porttab, semtab, pcs, ptnext, ptmsg
    {
      && porttab[..] == old(porttab[..]) && semtab[..] == old(semtab[..]) && ptnext[..] == old(ptnext[..])
      && ptmsg[..] == old(ptmsg[..])
      && ptfree == old(ptfree) && queues == old(queues) && sent == old(sent) && got == old(got)
      && p < |old(pcs[..])| && pcs[..] == old(pcs[..])[p := Idle]
    }

    /** ptsend after its wait: a process whose port was reset or deleted gives up
        and touches nothing; any other deposits its message and signals. */
    method FinishSend(p: nat) returns (r: Outcome)
      requires Valid() && p < NPROC && pcs[p].Using? && pcs[p].send && pcs[p].granted
      modifies this, porttab, semtab, pcs, ptnext, ptmsg
      ensures Valid() && old(pcs[p].port) < NPORTS
      ensures r == SysErr <==> old(Gone(p))
      ensures r == SysErr ==> OnlyLeft(p)
      ensures r == Panics <==> !old(Gone(p)) && old(free) == []
      ensures r == Panics ==> Now() == old(Now()) && queues == old(queues) && sent == old(sent) && got == old(got)
      ensures r == Ok ==> sent == old(sent)[old(pcs[p].port) := old(sent)[old(pcs[p].port)] + [old(pcs[p].msg)]]
      ensures r == Ok ==> got == old(got) && pcs[p] == Idle
      ensures r == Ok || r == SysErr || r == Panics
      ensures r == FinishReply(old(Sys()), p) && Sys() == AfterFinish(old(Sys()), p)
    {
      hide Parted, Wired, Inv, AfterSignal, Full;
      PlaceOf(p);
      WhenFull();
      var i := pcs[p].port;
      ghost var v := Now();
      if porttab[i].state != PtAlloc || porttab[i].seqno != pcs[p].seqno {
        StaleLeaves(v, p);
        pcs[p] := Idle;
        assert Now() == AfterLeave(v, p);
        return SysErr;
      }
      FreeHead();
      if ptfree == NIL {
        return Panics;
      }
      GrantIsGood(v, p);
      var msg := pcs[p].msg;
      PutMessage(i, msg);
      hide History, Nodes;
      pcs[p] := Idle;
      assert Now() == AfterMove(v, p);
      SignalOther(p, i, false, v);
      r := Ok;
    }

    /** The signal at the end of a call, after a message was moved. */
    method SignalOther(p: nat, i: nat, send: bool, ghost v: View)
      requires Shape() && i < NPORTS && p < NPROC && Inv(v) && Now() == AfterMove(v, p)
      requires v.pcs[p].Using? && v.pcs[p].granted && v.pcs[p].port == i && v.pcs[p].send != send && !Stale(v, p)
      requires Has(v, i, v.pcs[p].send)
      modifies semtab, pcs
      ensures Synced() && Now() == AfterSignal(AfterMove(v, p), i, send) && pcs[p] == Idle
    {
      GrantIsGood(v, p);
      MoveShapes(v, p, i);
      FinishKeeps(v, p);
      assert Sizes(v);
      hide Inv, Shaped;
      Signal(i, send);
    }

    lemma PlaceOf(p: nat)
      requires Synced() && p < NPROC == pcs.Length && pcs[p].Using?
      ensures pcs[p].port < NPORTS
      ensures !Stale(Now(), p) ==>
                Has(Now(), pcs[p].port, pcs[p].send) && |stages| == NPORTS && stages[pcs[p].port] == Steady
    {
      assert PcOk(Now(), p) && PortOk(Now(), pcs[p].port);
    }

    /** The free list is empty exactly when all nodes are on queues. */
    lemma WhenFull()
      requires Shape() && Nodes()
      ensures Full(Sys()) <==> free == []
    {
      LensTotal(queues);
    }

    lemma FreeHead()
      requires Nodes()
      ensures ptfree == NIL <==> free == []
    {
      assert Owned(own, Held(free, queues, FREE), FREE);
      FirstOf(ptnext[..], ptfree, free, FREE, own);
    }

    /** ptrecv after its wait: a granted process always finds a message, and takes
        the oldest; a process whose port is gone takes nothing. */
    method FinishRecv(p: nat) returns (r: Outcome, msg: umsg32)
      requires Valid() && p < NPROC && pcs[p].Using? && !pcs[p].send && pcs[p].granted
      modifies this, porttab, semtab, pcs, ptnext, ptmsg
      ensures Valid() && old(pcs[p].port) < NPORTS
      ensures r == SysErr <==> old(Gone(p))
      ensures r == SysErr ==> OnlyLeft(p)
      ensures r == Ok <==> !old(Gone(p))
      ensures r == Ok ==> var i := old(pcs[p].port);
                          && |old(got)[i]| < |old(sent)[i]| && msg == old(sent)[i][|old(got)[i]|]
                          && got == old(got)[i := old(got)[i] + [msg]] && sent == old(sent) && pcs[p] == Idle
      ensures r == FinishReply(old(Sys()), p) && Sys() == AfterFinish(old(Sys()), p)
    {
      hide Parted, Wired, Inv, AfterSignal, Full;
      PlaceOf(p);
      var i := pcs[p].port;
      ghost var v := Now();
      if porttab[i].state != PtAlloc || porttab[i].seqno != pcs[p].seqno {
        StaleLeaves(v, p);
        pcs[p] := Idle;
        assert Now() == AfterLeave(v, p);
        return SysErr, 0;
      }
      GrantIsGood(v, p);
      msg := TakeMessage(i);
      pcs[p] := Idle;
      assert Now() == AfterMove(v, p);
      SignalOther(p, i, true, v);
      r := Ok;
    }

    /** ptsend: refused, blocked, or carried through at once. */
    method Ptsend(p: nat, portid: int, msg: umsg32) returns (r: Outcome)
      requires Valid() && p < NPROC && pcs[p] == Idle
      modifies this, porttab, semtab, pcs, ptnext, ptmsg
      ensures Valid()
      ensures r == SysErr <==> !(0 <= portid < NPORTS && old(Ready(portid)) && old(porttab[portid].ssem) >= 0)
      ensures r == SysErr ==> Now() == old(Now()) && sent == old(sent) && got == old(got) && queues == old(queues)
      ensures r == Blocks <==> r != SysErr && old(SemAt(Now(), portid, true)).count <= 0
      ensures r == Blocks ==>
                Now() == AfterWait(old(Now()), p, portid, true, msg) && sent == old(sent) && got == old(got)
      ensures r == Panics <==> r != SysErr && r != Blocks && old(free) == []
      ensures r == Ok ==> sent == old(sent)[portid := old(sent)[portid] + [msg]] && got == old(got) && pcs[p] == Idle
      ensures r == CallReply(old(Sys()), p, portid, true, msg) && Sys() == Apply(old(Sys()), Send(p, portid, msg))
    {
      hide Parted, Wired, Inv, AfterFinish, FinishReply;
      if portid < 0 || portid >= NPORTS {
        return SysErr;
      }
      if porttab[portid].state != PtAlloc {
        return SysErr;
      }
      ghost var before := porttab[..];
      r := Wait(p, true, portid, msg);
      if r == Ok {
        r := FinishSend(p);
      }
    }

    predicate Ready(portid: int)
      reads porttab
    {
      0 <= portid < porttab.Length && porttab[portid].state == PtAlloc
    }

    /** ptrecv: refused, blocked, or carried through at once. */
    method Ptrecv(p: nat, portid: int) returns (r: Outcome, msg: umsg32)
      requires Valid() && p < NPROC && pcs[p] == Idle
      modifies this, porttab, semtab, pcs, ptnext, ptmsg
      ensures Valid()
      ensures r == SysErr <==> !(0 <= portid < NPORTS && old(Ready(portid)) && old(porttab[portid].rsem) >= 0)
      ensures r == SysErr ==> Now() == old(Now()) && sent == old(sent) && got == old(got) && queues == old(queues)
      ensures r == Blocks <==> r != SysErr && old(SemAt(Now(), portid, false)).count <= 0
      ensures r == Blocks ==>
                Now() == AfterWait(old(Now()), p, portid, false, 0) && sent == old(sent) && got == old(got)
      ensures r == Ok ==> && |old(got)[portid]| < |old(sent)[portid]| && msg == old(sent)[portid][|old(got)[portid]|]
                          && got == old(got)[portid := old(got)[portid] + [msg]] && sent == old(sent) && pcs[p] == Idle
      ensures r != Panics
      ensures r == CallReply(old(Sys()), p, portid, false, 0) && Sys() == Apply(old(Sys()), Recv(p, portid))
    {
      hide Parted, Wired, Inv, AfterFinish, FinishReply;
      msg := 0;
      if portid < 0 || portid >= NPORTS {
        return SysErr, 0;
      }
      if porttab[portid].state != PtAlloc {
        return SysErr, 0;
      }
      r := Wait(p, false, portid, 0);
      if r == Ok {
        r, msg := FinishRecv(p);
      }
    }

    // ------------------------------------------------------------- clearing

    /** ready(getfirst(...)): the first waiter is granted. */
    method ReleaseFirst(sid: nat, ghost was: seq<Pc>, ghost ws: seq<nat>, ghost k: nat)
      requires Shape() && sid < NSEM && k < |ws| && semtab[sid].waiters == ws[k..] && ws[k] < NPROC == |was|
      requires was[ws[k]].Using?
      requires pcs[..] == Released(was, ws[..k]) && ws[k] !in ws[..k]
      modifies semtab, pcs
      ensures semtab[..] == old(semtab[..])[sid := old(semtab[..])[sid].(waiters := ws[k + 1..])]
      ensures pcs[..] == Released(was, ws[..k + 1])
    {
      var pid := semtab[sid].waiters[0];
      semtab[sid] := semtab[sid].(waiters := semtab[sid].waiters[1..]);
      ghost var mid := pcs[..];
      pcs[pid] := pcs[pid].(granted := true);
      assert ws[..k + 1] == ws[..k] + [ws[k]];
      forall q | 0 <= q < NPROC
        ensures pcs[..][q] == Released(was, ws[..k + 1])[q]
      {
      }
    }

    /** semreset: every waiter is released and the count set. */
    method Semreset(sid: int, count: nat)
      requires Shape() && (sid >= 0 ==> sid < NSEM && semtab[sid].used && Releasable(semtab[sid].waiters))
      modifies semtab, pcs
      ensures sid < 0 ==> semtab[..] == old(semtab[..]) && pcs[..] == old(pcs[..])
      ensures sid >= 0 ==> semtab[..] == old(semtab[..])[sid := Sem(true, count, [])]
      ensures sid >= 0 ==> pcs[..] == Released(old(pcs[..]), old(semtab[..])[sid].waiters)
    {
      if sid < 0 {
        return;
      }
      ghost var was, ws, sems, k := pcs[..], semtab[sid].waiters, semtab[..], 0;
      NoneReleased(was);
      while semtab[sid].waiters != []
        invariant 0 <= k <= |ws| && semtab[..] == sems[sid := sems[sid].(waiters := ws[k..])]
        invariant pcs[..] == Released(was, ws[..k])
        decreases |ws| - k
        modifies semtab, pcs
      {
        ReleaseFirst(sid, was, ws, k);
        k := k + 1;
      }
      assert ws[..k] == ws;
      semtab[sid] := semtab[sid].(count := count);
    }

    /** semdelete: the semaphore is free, and every waiter is released. */
    method Semdelete(sid: int) returns (ghost left: int)
      requires Shape()
      requires sid >= 0 ==> sid < NSEM && semtab[sid].used && CountOk(semtab[sid]) && Releasable(semtab[sid].waiters)
      modifies semtab, pcs
      ensures sid < 0 ==> semtab[..] == old(semtab[..]) && pcs[..] == old(pcs[..])
      ensures left == Pos(if sid >= 0 then old(semtab[..])[sid].count else 0) + 1
      ensures sid >= 0 ==> semtab[..] == old(semtab[..])[sid := Sem(false, left, [])]
      ensures sid >= 0 ==> pcs[..] == Released(old(pcs[..]), old(semtab[..])[sid].waiters)
    {
      left := 1;
      if sid < 0 {
        return;
      }
      ghost var was, ws, sems, k := pcs[..], semtab[sid].waiters, semtab[..], 0;
      NoneReleased(was);
      semtab[sid] := semtab[sid].(used := false);
      semtab[sid] := semtab[sid].(count := semtab[sid].count + 1);
      while semtab[sid].count - 1 < 0
        invariant 0 <= k <= |ws| && semtab[..] == sems[sid := Sem(false, sems[sid].count + 1 + k, ws[k..])]
        invariant pcs[..] == Released(was, ws[..k])
        decreases |ws| - k
        modifies semtab, pcs
      {
        ReleaseFirst(sid, was, ws, k);
        semtab[sid] := semtab[sid].(count := semtab[sid].count + 1);
        k := k + 1;
      }
      assert ws[..k] == ws;
      left := semtab[sid].count;
    }

    ghost predicate Releasable(ws: seq<nat>)
      reads pcs
    {
      && (forall k :: 0 <= k < |ws| ==> ws[k] < pcs.Length && pcs[ws[k]].Using?)
      && (forall j, k :: 0 <= j < k < |ws| ==> ws[j] != ws[k])
    }

    lemma NoneReleased(was: seq<Pc>)
      ensures Released(was, []) == was
    {
    }

    /** The first step of ptreset and ptdelete: the port goes into limbo under a
        new sequence number, so that no send or receive gets in. */
    method BeginClear(p: nat, portid: int, to: PortState) returns (r: Outcome)
      requires Valid() && p < NPROC && pcs[p] == Idle && to != PtLimbo
      modifies this, porttab, pcs
      ensures Valid() && sent == old(sent) && got == old(got) && queues == old(queues)
      ensures r == Ok <==> 0 <= portid < NPORTS && old(Ready(portid))
      ensures r == Ok ==> Now() == AfterLimbo(old(Now()), p, portid, to)
      ensures r != Ok ==> r == SysErr && Now() == old(Now())
      ensures Sys() == Apply(old(Sys()), Begin(p, portid, to))
    {
      hide Parted, Inv;
      if portid < 0 || portid >= NPORTS {
        return SysErr;
      }
      if porttab[portid].state != PtAlloc {
        return SysErr;
      }
      LimboKeeps(Now(), p, portid, to);
      ghost var next, ports, was := AfterLimbo(Now(), p, portid, to), porttab[..], stages;
      porttab[portid] := porttab[portid].(state := PtLimbo);
      porttab[portid] := porttab[portid].(seqno := porttab[portid].seqno + 1);
      pcs[p] := Clearing(portid, to, 0);
      assert |stages| == NPORTS;
      stages := stages[portid := Stage(to, 0)];
      assert Alive(porttab[..], stages) == Alive(ports, was);
      assert Heads(porttab[..]) == Heads(ports) && Tails(porttab[..]) == Tails(ports);
      BareUpdate(ports, portid, porttab[portid]);
      assert Now() == next;
      r := Ok;
    }

    /** Dispose of the queued messages, oldest first, and give all nodes of the
        port back. */
    method DisposeQueue(i: nat, to: PortState) returns (disposed: seq<umsg32>)
      requires Shape() && Nodes() && History() && i < NPORTS && porttab[i].state == PtLimbo && stages[i] == Stage(to, 0)
      modifies porttab, ptnext, `ptfree, `own, `free, `queues, `stages, `sent, `got
      ensures Nodes() && History() && |old(got)[i]| <= |old(sent)[i]|
      ensures disposed == old(sent)[i][|old(got)[i]|..]
      ensures Bare(porttab[..]) == old(Bare(porttab[..])) && queues == old(queues)[i := []]
      ensures stages == old(stages)[i := Stage(to, 1)]
      ensures sent == old(sent)[i := []] && got == old(got)[i := []]
    {
      hide NodesOk, Cleaned;
      disposed := WalkQueue(i);
      ghost var was := queues;
      SpliceQueue(i);
      ToldClear(sent, got, was, queues, ptmsg[..], i);
      ghost var ports := porttab[..];
      if to == PtAlloc {
        LinksUpdate(ports, i, NIL, NIL);
        LinksOfDead(ptnext[..], own, ptfree, free, Heads(ports), Tails(ports), Alive(ports, stages)[i := false],
          queues, i);
        porttab[i] := porttab[i].(tail := NIL, head := NIL);
      }
      CleanedClear(ports, stages, i, porttab[i], Stage(to, 1));
      AliveClear(ports, stages, i, porttab[i], Stage(to, 1));
      assert porttab[..] == ports[i := porttab[i]];
      stages := stages[i := Stage(to, 1)];
      sent, got := sent[i := []], got[i := []];
    }

    /** The whole queue of port i is put in front of the free list. */
    method SpliceQueue(i: nat)
      requires Shape() && Nodes() && History() && i < NPORTS && HasQueue(porttab[i], stages[i])
      modifies ptnext, `ptfree, `own, `free, `queues
      ensures queues == old(queues)[i := []]
      ensures NodesOk(ptnext[..], own, ptfree, free, Heads(porttab[..]), Tails(porttab[..]),
                Alive(porttab[..], stages)[i := false], queues)
    {
      hide Parted, Wired;
      Splice(ptnext[..], own, ptfree, free, Heads(porttab[..]), Tails(porttab[..]), Alive(porttab[..], stages),
        queues, i);
      if porttab[i].head != NIL {
        ghost var list := queues[i];
        ptnext[porttab[i].tail] := ptfree;
        ptfree := porttab[i].head;
        own, free, queues := Freed(own, i), list + free, queues[i := []];
      }
      assert queues == old(queues)[i := []];
    }

    /** The walk that hands each queued message to the disposal function. */
    method WalkQueue(i: nat) returns (disposed: seq<umsg32>)
      requires Shape() && Nodes() && History() && i < NPORTS && HasQueue(porttab[i], stages[i])
      ensures |got[i]| <= |sent[i]| && disposed == sent[i][|got[i]|..]
    {
      ghost var list, k := queues[i], 0;
      assert Alive(porttab[..], stages)[i] && Chain(ptnext[..], porttab[i].head, list);
      disposed := [];
      var walk := porttab[i].head;
      hide Parted, Wired, Chain;
      while walk != NIL
        invariant 0 <= k <= |list| && walk == Item(list, k)
        invariant disposed == Messages(ptmsg[..], list)[..k]
        decreases |list| - k
      {
        assert Linked(ptnext[..], list, k) by { NodeLinked(ptnext[..], porttab[i].head, list, k); }
        disposed := disposed + [ptmsg[walk]];
        walk := ptnext[walk];
        k := k + 1;
      }
      assert k == |list|;
      assert Messages(ptmsg[..], list)[..k] == Messages(ptmsg[..], list);
      assert sent[i] == got[i] + disposed;
    }

    /** One semaphore of a port that is being cleared may be emptied. */
    lemma MayRelease(p: nat, i: nat, to: PortState, send: bool)
      requires Shape() && Synced() && p < NPROC && pcs[p] == Clearing(i, to, if send then 0 else 1)
      ensures i < NPORTS && porttab[i].state == PtLimbo && stages[i] == Stage(to, if send then 0 else 1)
      ensures to == PtAlloc || to == PtFree
      ensures var sid := SemId(porttab[i], send);
              sid >= 0 ==> sid < NSEM && semtab[sid].used && CountOk(semtab[sid]) && Releasable(semtab[sid].waiters)
    {
      var v := Now();
      assert PcOk(v, p) && PortOk(v, i) && LimboOk(v, i);
      var sid := SemId(porttab[i], send);
      if sid >= 0 {
        assert Has(v, i, send) && HalfOk(v, i, send);
        forall k | 0 <= k < |semtab[sid].waiters|
          ensures semtab[sid].waiters[k] < pcs.Length && pcs[semtab[sid].waiters[k]].Using?
        {
          assert Blocked(pcs[..], semtab[sid].waiters[k], i, send);
        }
      }
    }

    /** semreset or semdelete on one semaphore of the port. */
    method EmptySem(i: nat, to: PortState, send: bool) returns (ghost s2: Sem)
      requires Shape() && i < NPORTS && (to == PtAlloc || to == PtFree)
      requires var sid := SemId(porttab[i], send);
               sid >= 0 ==> sid < NSEM && semtab[sid].used && CountOk(semtab[sid]) && Releasable(semtab[sid].waiters)
      modifies semtab, pcs
      ensures s2 == ClearedTo(old(Now()), i, to, send)
      ensures var sid := SemId(porttab[i], send);
              && semtab[..] == (if sid >= 0 then old(semtab[..])[sid := s2] else old(semtab[..]))
              && pcs[..] == if sid >= 0 then Released(old(pcs[..]), old(semtab[..])[sid].waiters) else old(pcs[..])
    {
      var count := if send then porttab[i].maxcnt else 0;
      if to == PtAlloc {
        Semreset(SemId(porttab[i], send), count);
        s2 := Sem(true, count, []);
      } else {
        ghost var left := Semdelete(SemId(porttab[i], send));
        s2 := Sem(false, left, []);
      }
    }

    /** The middle of _ptclear: the queue is disposed of and its nodes freed, and
        every blocked sender is released. Its end is a reschedule. */
    method ClearSenders(p: nat) returns (disposed: seq<umsg32>)
      requires Valid() && p < NPROC && pcs[p].Clearing? && pcs[p].phase == 0
      modifies this, porttab, semtab, pcs, ptnext
      ensures Valid() && old(pcs[p].port) < NPORTS
      ensures var i, to := old(pcs[p]).port, old(pcs[p]).to;
              && |old(got)[i]| <= |old(sent)[i]| && disposed == old(sent)[i][|old(got)[i]|..]
              && sent == old(sent)[i := []] && got == old(got)[i := []] && queues == old(queues)[i := []]
              && Now() == AfterClear(old(Now()), p, i, to, true, ClearedTo(old(Now()), i, to, true))
      ensures Sys() == Apply(old(Sys()), ClearSend(p))
    {
      hide Nodes, Inv, Releasable, History, CountOk, Apply, AfterClear, ClearedTo;
      ApplyClear(Sys(), p);
      assert |sent| == |got| == NPORTS by { EachHistory(); }
      var i, to := pcs[p].port, pcs[p].to;
      ghost var v := Now();
      MayRelease(p, i, to, true);
      ViewSizes(v);
      disposed := DisposeQueue(i, to);
      assert Lens(queues) == Lens(old(queues))[i := 0];
      ReleaseSenders(p, i, to, v);
    }

    lemma EachHistory()
      requires History()
      ensures |sent| == |got| == NPORTS
    {
    }

    /** All blocked senders are released; with the queue gone, the port's counts
        start again. */
    method ReleaseSenders(p: nat, i: nat, to: PortState, ghost v: View)
      requires Shape() && i < NPORTS && p < NPROC && Inv(v) && Sizes(v) && v.pcs[p] == Clearing(i, to, 0)
      requires to == PtAlloc || to == PtFree
      requires Now() == v.(stages := v.stages[i := Stage(to, 1)], qlen := v.qlen[i := 0])
      requires var sid := SemId(porttab[i], true);
               sid >= 0 ==> sid < NSEM && semtab[sid].used && CountOk(semtab[sid]) && Releasable(semtab[sid].waiters)
      modifies semtab, pcs, `cap, `lostS, `lostR
      ensures Synced() && Now() == AfterClear(v, p, i, to, true, ClearedTo(v, i, to, true))
    {
      hide Inv, Releasable, CountOk;
      ghost var s2 := EmptySem(i, to, true);
      assert s2 == ClearedTo(v, i, to, true);
      ClearKeeps(v, p, i, to, true, s2);
      pcs[p] := Clearing(i, to, 1);
      cap, lostS, lostR := cap[i := porttab[i].maxcnt], lostS[i := 0], lostR[i := 0];
      assert Now() == AfterClear(v, p, i, to, true, s2);
    }

    lemma ViewSizes(v: View)
      requires Inv(v)
      ensures Sizes(v)
    {
    }

    /** The rest of _ptclear before its last assignment: every blocked receiver is
        released. Its end is a reschedule. */
    method ClearReceivers(p: nat)
      requires Valid() && p < NPROC && pcs[p].Clearing? && pcs[p].phase == 1
      modifies semtab, pcs, `stages
      ensures Valid() && old(pcs[p].port) < NPORTS
      ensures var i, to := old(pcs[p]).port, old(pcs[p]).to;
              Now() == AfterClear(old(Now()), p, i, to, false, ClearedTo(old(Now()), i, to, false))
      ensures Sys() == Apply(old(Sys()), ClearRecv(p))
    {
      hide Parted, Wired, Inv, Releasable, Apply;
      ApplyClear(Sys(), p);
      var i, to := pcs[p].port, pcs[p].to;
      ghost var v := Now();
      MayRelease(p, i, to, false);
      ghost var s2 := EmptySem(i, to, false);
      ClearKeeps(v, p, i, to, false, s2);
      pcs[p] := Clearing(i, to, 2);
      ViewSizes(v);
      ghost var was := stages;
      stages := stages[i := Stage(to, 2)];
      assert Alive(porttab[..], stages) == Alive(porttab[..], was);
      assert Now() == AfterClear(v, p, i, to, false, s2);
    }

    /** ptptr->ptstate = newstate. */
    method SetState(i: nat, to: PortState)
      requires Shape() && Nodes() && i < NPORTS && porttab[i].state == PtLimbo && stages[i] == Stage(to, 2)
      requires to == PtAlloc || to == PtFree
      modifies porttab, `stages
      ensures Nodes() && stages == old(stages)[i := Steady]
      ensures Bare(porttab[..]) == old(Bare(porttab[..]))[i := old(Bare(porttab[..]))[i].(state := to)]
    {
      hide Parted, Wired;
      ghost var ports, was := porttab[..], stages;
      porttab[i] := porttab[i].(state := to);
      stages := stages[i := Steady];
      if to == PtFree {
        assert Alive(porttab[..], stages) == Alive(ports, was);
      } else {
        OpenQueue(ptnext[..], own, ptfree, free, Heads(ports), Tails(ports), Alive(ports, was), queues, i);
        assert Alive(porttab[..], stages) == Alive(ports, was)[i := true];
      }
      BareUpdate(ports, i, porttab[i]);
      assert Heads(porttab[..]) == Heads(ports) && Tails(porttab[..]) == Tails(ports);
      assert Heads(ports)[i := ports[i].head] == Heads(ports) && Tails(ports)[i := ports[i].tail] == Tails(ports);
    }

    /** The end of ptreset or ptdelete: the port is ready under its new number, or
        free to be created again. */
    method EndClear(p: nat) returns (r: Outcome)
      requires Valid() && p < NPROC && pcs[p].Clearing? && pcs[p].phase == 2
      modifies porttab, pcs, `stages, `cap, `ptnextid
      ensures Valid() && r == Ok && Now() == AfterEnd(old(Now()), p, old(pcs[p].port), old(pcs[p].to))
      ensures Sys() == Apply(old(Sys()), End(p))
      ensures old(pcs[p].to) == PtFree ==> ptnextid == old(pcs[p].port)
    {
      hide Nodes, Inv, Apply;
      ApplyEnd(Sys(), p);
      var i, to := pcs[p].port, pcs[p].to;
      ghost var v := Now();
      Finishing(p, i, to);
      EndKeeps(v, p, i, to);
      ViewSizes(v);
      SetState(i, to);
      pcs[p] := Idle;
      if to == PtFree {
        cap := cap[i := 0];
        ptnextid := i;
      }
      assert Now() == AfterEnd(v, p, i, to);
      r := Ok;
    }

    lemma Finishing(p: nat, i: nat, to: PortState)
      requires Shape() && Synced() && p < NPROC && pcs[p] == Clearing(i, to, 2)
      ensures i < NPORTS == |stages| && porttab[i].state == PtLimbo && stages[i] == Stage(to, 2)
      ensures to == PtAlloc || to == PtFree
    {
      var v := Now();
      assert PcOk(v, p) && PortOk(v, i) && LimboOk(v, i);
    }

    // ------------------------------------------------- creation and killing

    /** The first free semaphore from nextsem on, going round the table once. */
    method Newsem() returns (sem: int)
      requires Shape() && nextsem < NSEM
      modifies semtab, `nextsem
      ensures nextsem < NSEM && (sem == -1 || 0 <= sem < NSEM)
      ensures sem == -1 <==> forall s :: 0 <= s < NSEM ==> old(semtab[..])[s].used
      ensures sem == -1 ==> semtab[..] == old(semtab[..])
      ensures sem >= 0 ==>
                !old(semtab[..])[sem].used && semtab[..] == old(semtab[..])[sem := old(semtab[..])[sem].(used := true)]
    {
      ghost var start := nextsem;
      var i := 0;
      while i < NSEM
        invariant 0 <= i <= NSEM && nextsem == (if start + i >= NSEM then start + i - NSEM else start + i)
        invariant nextsem < NSEM
        invariant semtab[..] == old(semtab[..])
        invariant forall s :: 0 <= s < NSEM && (start <= s < start + i || s + NSEM < start + i) ==> semtab[s].used
      {
        sem := nextsem;
        nextsem := nextsem + 1;
        if nextsem >= NSEM {
          nextsem := 0;
        }
        if !semtab[sem].used {
          semtab[sem] := semtab[sem].(used := true);
          return sem;
        }
        i := i + 1;
      }
      sem := -1;
    }

    method Semcreate(count: int) returns (sem: int)
      requires Shape() && nextsem < NSEM && FreeSems(semtab[..])
      modifies semtab, `nextsem
      ensures nextsem < NSEM && FreeSems(semtab[..]) && (sem == -1 || 0 <= sem < NSEM)
      ensures sem == -1 <==> count < 0 || forall s :: 0 <= s < NSEM ==> old(semtab[..])[s].used
      ensures sem >= 0 ==> !old(semtab[..])[sem].used && count >= 0
      ensures semtab[..] == WithSem(old(semtab[..]), sem, count)
    {
      if count < 0 {
        return -1;
      }
      sem := Newsem();
      if sem == -1 {
        return;
      }
      semtab[sem] := semtab[sem].(count := count);
    }

    /** The two semaphores of a new port, as far as there are any. */
    method PortSems(count: nat) returns (ssem: int, rsem: int)
      requires Shape() && nextsem < NSEM && FreeSems(semtab[..])
      modifies semtab, `nextsem
      ensures nextsem < NSEM && ssem < NSEM && rsem < NSEM
      ensures semtab[..] == WithSem(WithSem(old(semtab[..]), ssem, count), rsem, 0)
      ensures ssem >= 0 ==> !old(semtab[..])[ssem].used && rsem != ssem
      ensures rsem >= 0 ==> !old(semtab[..])[rsem].used
    {
      ssem := Semcreate(count);
      rsem := Semcreate(0);
    }

    /** Port i has the capacity it was made for: that many permits to send, if it has
        the semaphore, and none to receive. */
    ghost predicate HoldsCount(i: nat, count: int)
      reads porttab, semtab, `cap
    {
      && i < porttab.Length && i < |cap| && cap[i] == count
      && (porttab[i].ssem >= 0 ==> porttab[i].ssem < semtab.Length && semtab[porttab[i].ssem] == Sem(true, count, []))
      && (porttab[i].rsem >= 0 ==> porttab[i].rsem < semtab.Length && semtab[porttab[i].rsem] == Sem(true, 0, []))
    }

    /** Fill the table entry of a new port; its queue is empty. */
    method OpenPort(i: nat, count: nat)
      requires Valid() && i < NPORTS && porttab[i].state == PtFree
      modifies porttab, semtab, `nextsem, `uses, `cap, `lostS, `lostR, `sent, `got
      ensures Valid() && 0 <= i < NPORTS && queues[i] == []
      ensures Allowed(old(Sys()), Create(i, porttab[i].ssem, porttab[i].rsem, count))
      ensures Sys() == Apply(old(Sys()), Create(i, porttab[i].ssem, porttab[i].rsem, count))
      ensures HoldsCount(i, count)
    {
      hide Nodes, Inv, Told, Apply;
      ghost var v := Now();
      EmptyWhenFree(i);
      SizesNow();
      var ssem, rsem := PortSems(count);
      CreateKeeps(v, i, ssem, rsem, count);
      FillEntry(i, ssem, rsem, count);
      assert Lens(queues)[i := 0] == Lens(queues);
      NewAccount(i, ssem, rsem, count, v);
      ApplyCreate(old(Sys()), i, ssem, rsem, count);
      CreatedSems(old(Sys()), i, ssem, rsem, count);
    }

    /** The counts and the history of a new port. */
    ghost method NewAccount(i: nat, ssem: int, rsem: int, count: nat, v: View)
      requires Shape() && i < NPORTS && Sizes(v) && Inv(AfterCreate(v, i, ssem, rsem, count)) && History()
      requires |queues| == NPORTS && queues[i] == []
      requires Now() ==
                 v.(ports := AfterCreate(v, i, ssem, rsem, count).ports,
                   sems := AfterCreate(v, i, ssem, rsem, count).sems)
      requires Lens(queues)[i := 0] == Lens(queues)
      modifies `uses, `cap, `lostS, `lostR, `sent, `got
      ensures Synced() && History() && Now() == AfterCreate(v, i, ssem, rsem, count)
      ensures |old(sent)| == |old(got)| == NPORTS && sent == old(sent)[i := []] && got == old(got)[i := []]
    {
      hide Inv;
      ToldClear(sent, got, queues, queues, ptmsg[..], i);
      uses := WithUse(WithUse(uses, ssem, UsedBy(i, true)), rsem, UsedBy(i, false));
      cap, lostS, lostR, sent, got := cap[i := count], lostS[i := 0], lostR[i := 0], sent[i := []], got[i := []];
      assert Now() == AfterCreate(v, i, ssem, rsem, count);
    }

    method FillEntry(i: nat, ssem: int, rsem: int, count: nat)
      requires Shape() && Nodes() && i < NPORTS && porttab[i].state == PtFree && stages[i] == Steady
      modifies porttab
      ensures Nodes() && porttab[..] == old(porttab[..])[i := NewPort(old(porttab[..])[i], ssem, rsem, count)]
      ensures Bare(porttab[..]) == old(Bare(porttab[..]))[i := NewPort(old(Bare(porttab[..]))[i], ssem, rsem, count)]
    {
      hide Parted, Wired;
      ghost var ports := porttab[..];
      porttab[i] := Port(ssem, rsem, PtAlloc, Uint16(count), porttab[i].seqno + 1, NIL, NIL);
      OpenQueue(ptnext[..], own, ptfree, free, Heads(ports), Tails(ports), Alive(ports, stages), queues, i);
      CleanedUpdate(ports, stages, i, porttab[i]);
      assert Alive(porttab[..], stages) == Alive(ports, stages)[i := true];
      assert Heads(porttab[..]) == Heads(ports)[i := NIL] && Tails(porttab[..]) == Tails(ports)[i := NIL];
      BareUpdate(ports, i, porttab[i]);
    }

    lemma SizesNow()
      requires Synced()
      ensures Sizes(Now()) && FreeSems(semtab[..])
    {
    }

    lemma EmptyWhenFree(i: nat)
      requires Valid() && i < NPORTS && porttab[i].state == PtFree
      ensures queues[i] == [] && stages[i] == Steady && |sent| == |got| == |queues| == NPORTS
      ensures !Alive(porttab[..], stages)[i]
    {
      assert PortOk(Now(), i);
      assert !Alive(porttab[..], stages)[i];
    }

    /** ptcreate: the first free port from ptnextid on, going round once. */
    method Ptcreate(count: int) returns (r: int)
      requires Valid()
      modifies porttab, semtab, `ptnextid, `nextsem, `uses, `cap, `lostS, `lostR, `sent, `got
      ensures Valid() && (r == -1 || 0 <= r < NPORTS)
      ensures r == -1 <==> count < 0 || forall i :: 0 <= i < NPORTS ==> old(porttab[..])[i].state != PtFree
      ensures r == -1 ==> Sys() == old(Sys())
      ensures r >= 0 ==> old(porttab[..])[r].state == PtFree && count >= 0 && queues[r] == []
      ensures r >= 0 ==> var step := Create(r, porttab[r].ssem, porttab[r].rsem, count);
                         Allowed(old(Sys()), step) && Sys() == Apply(old(Sys()), step)
      ensures r >= 0 ==> HoldsCount(r, count)
    {
      hide Inv, NodesOk, Told, Apply, Allowed, AfterCreate;
      assert porttab.Length == NPORTS;
      hide Shape, Synced, Nodes, History, Now, HoldsCount;
      if count < 0 {
        return -1;
      }
      ghost var start := ptnextid;
      var i := 0;
      while i < NPORTS
        invariant 0 <= i <= NPORTS && ptnextid == (if start + i >= NPORTS then start + i - NPORTS else start + i)
        invariant ptnextid < NPORTS
        invariant Valid() && Sys() == old(Sys()) && porttab[..] == old(porttab[..])
        invariant forall q :: 0 <= q < NPORTS && (start <= q < start + i || q + NPORTS < start + i) ==>
                  porttab[q].state != PtFree
      {
        var ptnum := ptnextid;
        ptnextid := ptnextid + 1;
        if ptnextid >= NPORTS {
          ptnextid := 0;
        }
        if porttab[ptnum].state == PtFree {
          OpenPort(ptnum, count);
          return ptnum;
        }
        i := i + 1;
      }
      r := -1;
    }

    /** kill of a process inside ptsend or ptrecv: a blocked process leaves the
        queue and gives its count back; a granted one takes its permit with it. */
    method KillUser(p: nat)
      requires Valid() && p < NPROC && pcs[p].Using?
      modifies semtab, pcs, `lostS, `lostR
      ensures Valid() && Now() == AfterKill(old(Now()), p)
      ensures Sys() == Apply(old(Sys()), Kill(p))
    {
      hide Nodes, Inv, Apply;
      ApplyKill(Sys(), p);
      PlaceOf(p);
      SizesNow();
      ghost var v := Now();
      var i, send := pcs[p].port, pcs[p].send;
      if pcs[p].granted {
        KillGrantedKeeps(v, p);
        if !Stale(v, p) {
          lostS := if send then lostS[i := lostS[i] + 1] else lostS;
          lostR := if send then lostR else lostR[i := lostR[i] + 1];
        }
      } else {
        KillBlockedKeeps(v, p);
        var sid := SemId(porttab[i], send);
        if 0 <= sid < NSEM {
          semtab[sid] := semtab[sid].(count := semtab[sid].count + 1);
          semtab[sid] := semtab[sid].(waiters := Minus(semtab[sid].waiters, p));
        }
      }
      pcs[p] := Idle;
      assert Now() == AfterKill(v, p);
    }

    /** The ports are in order as a state of the runs. */
    lemma InOrderNow()
      requires Valid()
      ensures Good(Sys())
    {
      var v := Now();
      ViewSizes(v);
      hide Inv, NodesOk;
      forall i | 0 <= i < NPORTS
        ensures got[i] <= sent[i] && |sent[i]| == |got[i]| + v.qlen[i]
      {
        assert sent[i] == got[i] + Messages(ptmsg[..], queues[i]);
      }
    }

    /** Messages leave a port in the order they were sent, none lost or twice:
        those received are the first of those sent, and the rest is queued. */
    lemma InOrder(i: nat)
      requires Valid() && i < NPORTS
      ensures |sent| == |got| == |queues| == NPORTS
      ensures got[i] <= sent[i] && sent[i][|got[i]|..] == Messages(ptmsg[..], queues[i])
    {
      hide Inv, NodesOk;
    }

    /** The nodes on the free list and on all ports together are always all nodes. */
    lemma NodesConserved()
      requires Valid()
      ensures |free| + Sum(queues) == ptnext.Length
    {
      hide Inv;
    }

    /** No send runs out of nodes while the capacities of all ports together do
        not exceed the number of nodes. */
    lemma NeverPanics(p: nat)
      requires Valid() && p < NPROC && pcs[p].Using? && pcs[p].send && pcs[p].granted && !Gone(p)
      requires Total(cap) <= ptnext.Length
      ensures free != []
    {
      assert !Stale(Now(), p);
      RoomForSender(Now(), p);
      LensTotal(queues);
      assert |free| + Sum(queues) == ptnext.Length;
    }

    /** ptinit: every port is free and the nodes form one free list. */
    constructor Ptinit(porttab: array<Port>, semtab: array<Sem>, pcs: array<Pc>, ptnext: array<int>,
        ptmsg: array<umsg32>, maxmsgs: nat)
      requires porttab.Length == NPORTS && semtab.Length == NSEM && pcs.Length == NPROC
      requires ptnext.Length == ptmsg.Length == maxmsgs > 0
      requires FreeSems(semtab[..]) && forall p :: 0 <= p < NPROC ==> pcs[p] == Idle
      modifies porttab, ptnext
      ensures Valid() && free == Upward(0, maxmsgs) && queues == seq(NPORTS, _ => [])
      ensures forall i :: 0 <= i < NPORTS ==> this.porttab[i].state == PtFree && this.porttab[i].seqno == 0
      ensures this.porttab == porttab && this.semtab == semtab && this.pcs == pcs && this.ptnext == ptnext
      ensures this.ptmsg == ptmsg
    {
      this.porttab, this.semtab, this.pcs, this.ptnext, this.ptmsg := porttab, semtab, pcs, ptnext, ptmsg;
      ptfree, ptnextid, nextsem := 0, 0, 0;
      own, free, queues := seq(maxmsgs, _ => FREE), Upward(0, maxmsgs), seq(NPORTS, _ => []);
      uses, stages := seq(NSEM, _ => NoUse), seq(NPORTS, _ => Steady);
      cap, lostS, lostR := seq(NPORTS, _ => 0), seq(NPORTS, _ => 0), seq(NPORTS, _ => 0);
      sent, got := seq(NPORTS, _ => []), seq(NPORTS, _ => []);
      new;
      FreePorts();
      LinkNodes(maxmsgs);
      FreshNodes(ptnext[..], Heads(porttab[..]), Tails(porttab[..]));
      assert Alive(porttab[..], stages) == seq(NPORTS, _ => false);
      FreshView(Now());
    }

    method FreePorts()
      requires porttab.Length == NPORTS
      modifies porttab
      ensures forall i :: 0 <= i < NPORTS ==> porttab[i].state == PtFree && porttab[i].seqno == 0
    {
      var i := 0;
      while i < NPORTS
        invariant 0 <= i <= NPORTS && forall j :: 0 <= j < i ==> porttab[j].state == PtFree && porttab[j].seqno == 0
      {
        porttab[i] := porttab[i].(state := PtFree, seqno := 0);
        i := i + 1;
      }
    }

    method LinkNodes(maxmsgs: nat)
      requires ptnext.Length == maxmsgs > 0
      modifies ptnext
      ensures forall k :: 0 <= k < maxmsgs ==> ptnext[k] == if k + 1 < maxmsgs then k + 1 else NIL
    {
      var curr, next, left := 0, 0, maxmsgs - 1;
      while left > 0
        invariant 0 <= left && curr == next == maxmsgs - 1 - left
        invariant forall k :: 0 <= k < curr ==> ptnext[k] == k + 1
      {
        next := next + 1;
        ptnext[curr] := next;
        curr := next;
        left := left - 1;
      }
      ptnext[curr] := NIL;
    }
  }
}
