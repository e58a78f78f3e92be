/** Processes at work on the ports: whatever calls they make, and wherever the
    processor goes from one to another, the ports go through a run. */
module PortClient {
  import opened PortNodes
  import opened PortSync
  import opened PortRun
  import opened Ports

  /** A creation, or the next step of some process. */
  datatype Move = Make(count: int) | Next(step: Step)

  /** The process can take the step where it is. */
  predicate Able(pcs: seq<Pc>, m: Move) {
    match m
    case Make(_) => true
    case Next(Send(p, _, _)) => p < |pcs| && pcs[p] == Idle
    case Next(Recv(p, _)) => p < |pcs| && pcs[p] == Idle
    case Next(Finish(p)) => p < |pcs| && pcs[p].Using? && pcs[p].granted
    case Next(Begin(p, _, to)) => p < |pcs| && pcs[p] == Idle && to != PtLimbo
    case Next(ClearSend(p)) => p < |pcs| && pcs[p].Clearing? && pcs[p].phase == 0
    case Next(ClearRecv(p)) => p < |pcs| && pcs[p].Clearing? && pcs[p].phase == 1
    case Next(End(p)) => p < |pcs| && pcs[p].Clearing? && pcs[p].phase == 2
    case Next(Create(_, _, _, _)) => false
    case Next(Kill(p)) => p < |pcs| && pcs[p].Using?
  }

  lemma AbleIsAllowed(s: State, m: Move)
    requires Sizes(s.v) && m.Next?
    ensures Able(s.v.pcs, m) <==> Allowed(s, m.step) && !m.step.Create?
  {
  }

  /** A creation that finds no free port is no step; everything else is one. */
  ghost predicate Taken(s: State, m: Move, steps: seq<Step>) {
    match m
    case Make(_) => steps == [] || (|steps| == 1 && steps[0].Create?)
    case Next(step) => steps == [step]
  }

  lemma OneStep(s: State, step: Step)
    requires Sizes(s.v) && Allowed(s, step)
    ensures AllowedRun(s, [step]) && Run(s, [step]) == Apply(s, step)
  {
    hide Allowed, Apply;
    assert AllowedRun(Apply(s, step), [step][1..]);
    assert Run(Apply(s, step), [step][1..]) == Apply(s, step);
  }

  /** One move of one process. */
  method Do(sys: PortSystem, m: Move) returns (ghost steps: seq<Step>)
    requires sys.Valid() && Able(sys.pcs[..], m)
    modifies sys, sys.porttab, sys.semtab, sys.pcs, sys.ptnext, sys.ptmsg
    ensures sys.Valid() && Taken(old(sys.Sys()), m, steps)
    ensures AllowedRun(old(sys.Sys()), steps) && sys.Sys() == Run(old(sys.Sys()), steps)
  {
    ghost var s := sys.Sys();
    sys.InOrderNow();
    InvSizes(s.v);
    if m.Next? {
      AbleIsAllowed(s, m);
      OneStep(s, m.step);
    }
    hide Good, Apply, Allowed, Run, AllowedRun, Sizes;
    match m {
      case Make(count) => steps := DoMake(sys, count);
      case Next(step) =>
        DoNext(sys, step);
        steps := [step];
    }
  }

  method DoMake(sys: PortSystem, count: int) returns (ghost steps: seq<Step>)
    requires sys.Valid()
    modifies sys, sys.porttab, sys.semtab
    ensures sys.Valid() && Taken(old(sys.Sys()), Make(count), steps)
    ensures AllowedRun(old(sys.Sys()), steps) && sys.Sys() == Run(old(sys.Sys()), steps)
  {
    ghost var s := sys.Sys();
    sys.InOrderNow();
    InvSizes(s.v);
    hide Good, Apply, Allowed, Sizes;
    var r := sys.Ptcreate(count);
    steps := [];
    if r >= 0 {
      steps := [Create(r, sys.porttab[r].ssem, sys.porttab[r].rsem, count)];
      OneStep(s, steps[0]);
    }
  }

  method DoNext(sys: PortSystem, step: Step)
    requires sys.Valid() && Able(sys.pcs[..], Next(step))
    modifies sys, sys.porttab, sys.semtab, sys.pcs, sys.ptnext, sys.ptmsg
    ensures sys.Valid() && sys.Sys() == Apply(old(sys.Sys()), step)
  {
    hide Apply;
    match step {
      case Send(p, portid, msg) => var _ := sys.Ptsend(p, portid, msg);
      case Recv(p, portid) => var _, _ := sys.Ptrecv(p, portid);
      case Finish(p) => DoFinish(sys, p);
      case Begin(p, portid, to) => var _ := sys.BeginClear(p, portid, to);
      case ClearSend(p) => var _ := sys.ClearSenders(p);
      case ClearRecv(p) => sys.ClearReceivers(p);
      case End(p) => var _ := sys.EndClear(p);
      case Kill(p) => sys.KillUser(p);
    }
  }

  method DoFinish(sys: PortSystem, p: nat)
    requires sys.Valid() && p < sys.pcs.Length && sys.pcs[p].Using? && sys.pcs[p].granted
    modifies sys, sys.porttab, sys.semtab, sys.pcs, sys.ptnext, sys.ptmsg
    ensures sys.Valid() && sys.Sys() == Apply(old(sys.Sys()), Finish(p))
  {
    hide AfterFinish;
    if sys.pcs[p].send {
      var _ := sys.FinishSend(p);
    } else {
      var _, _ := sys.FinishRecv(p);
    }
  }

  lemma {:induction false} RunMore(s: State, a: seq<Step>, b: seq<Step>)
    requires AllowedRun(s, a) && AllowedRun(Run(s, a), b)
    ensures AllowedRun(s, a + b) && Run(s, a + b) == Run(Run(s, a), b)
    decreases |a|
  {
    hide Allowed, Apply, Sizes;
    if a == [] {
      assert a + b == b;
    } else {
      assert (a + b)[0] == a[0] && (a + b)[1..] == a[1..] + b;
      RunMore(Apply(s, a[0]), a[1..], b);
    }
  }

  /** Any moves in any order, those skipped that the process cannot make where it
      is: together they are a run. */
  method DoAll(sys: PortSystem, moves: seq<Move>) returns (ghost steps: seq<Step>)
    requires sys.Valid()
    modifies sys, sys.porttab, sys.semtab, sys.pcs, sys.ptnext, sys.ptmsg
    ensures sys.Valid() && Good(sys.Sys())
    ensures AllowedRun(old(sys.Sys()), steps) && sys.Sys() == Run(old(sys.Sys()), steps)
  {
    hide Good, Apply, Allowed, Run, AllowedRun, Sizes;
    steps := [];
    RunNothing(sys.Sys());
    for k := 0 to |moves|
      invariant sys.Valid() && AllowedRun(old(sys.Sys()), steps) && sys.Sys() == Run(old(sys.Sys()), steps)
    {
      if Able(sys.pcs[..], moves[k]) {
        ghost var more := Do(sys, moves[k]);
        RunMore(old(sys.Sys()), steps, more);
        steps := steps + more;
      }
    }
    sys.InOrderNow();
  }

  lemma RunNothing(s: State)
    ensures AllowedRun(s, []) && Run(s, []) == s
  {
  }
}
