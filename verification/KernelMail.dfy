/** What belongs to a process, over all runs: its message, its priority, and its
    rest. */
module KernelMail {
  import opened QueueTable
  import opened Queues
  import opened Delays
  import opened Processes
  import opened Operations
  import opened KernelRun
  import opened KernelFrame
  import opened KernelSems

  datatype Mail = NoMail | Mail(msg: int)

  function MailOf(v: View, p: nat): Mail {
    if HasMsg(v, p) then Mail(v.procs[p].msg) else NoMail
  }

  predicate Alive(v: View, p: nat) {
    p < |v.procs| && v.procs[p].state != PrFree
  }

  /** What a call makes of the message that waits for p. */
  function MailAfter(v: View, c: Call, p: nat): Mail {
    match c
    case SendTo(q, m) => if q == p && Alive(v, p) && MailOf(v, p) == NoMail then Mail(m) else MailOf(v, p)
    case TakeMessage => if p == v.curr then NoMail else MailOf(v, p)
    case NewProc(q, prio) => if q == p then NoMail else MailOf(v, p)
    case _ => MailOf(v, p)
  }

  lemma WrittenOwn(v: View, c: Call, p: nat)
    requires Sizes(v) && p < NPROC
    ensures Sizes(Written(v, c)) && MailOf(Written(v, c), p) == MailAfter(v, c, p)
    ensures c.NewProc? && c.pid == p ==>
              Written(v, c).procs[p].prio == c.prio && Written(v, c).procs[p].parent == v.curr
              && Written(v, c).procs[p].state == PrSusp
    ensures !(c.NewProc? && c.pid == p) ==>
              Written(v, c).procs[p].prio == v.procs[p].prio && Written(v, c).procs[p].parent == v.procs[p].parent
              && Written(v, c).procs[p].state == v.procs[p].state
  {
  }

  lemma FrameMail(v: View, w: View, x: int, y: int, p: nat)
    requires Frame(v, w, x, y) && p < NPROC
    ensures MailOf(w, p) == MailOf(v, p) && w.procs[p].prio == v.procs[p].prio && w.procs[p].parent == v.procs[p].parent
    ensures p != x && AtRest(v.procs[p].state) ==> w.procs[p].state == v.procs[p].state
  {
  }

  /** Only an accepted send gives a process its message, the one that was sent, and
      only its own receive or a new process in its place takes it. */
  lemma ApplyMail(v: View, c: Call, p: nat)
    requires Inv(v) && Allowed(v, c) && p < NPROC
    ensures MailOf(Apply(v, c), p) == MailAfter(v, c, p)
  {
    hide Inv, Apply, Allowed, Frame, Written;
    InvFree(v);
    ApplyFrame(v, c);
    WrittenOwn(v, c, p);
    FrameMail(Written(v, c), Apply(v, c), Moves(v, c), Works(v, c), p);
  }

  /** The message that waits for p after a run, read off the calls: the argument of
      the first send since there was none. */
  function LastSent(v: View, calls: seq<Call>, p: nat): Mail
    decreases |calls|
  {
    if |calls| == 0 then MailOf(v, p)
    else
      var n := |calls| - 1;
      var u, old_mail := KernelRun.Run(v, calls[..n]), LastSent(v, calls[..n], p);
      match calls[n]
      case SendTo(q, m) => if q == p && Alive(u, p) && old_mail == NoMail then Mail(m) else old_mail
      case TakeMessage => if p == u.curr then NoMail else old_mail
      case NewProc(q, prio) => if q == p then NoMail else old_mail
      case _ => old_mail
  }

  /** In every state of every run the message of a process is the one last sent to
      it and not yet taken. */
  lemma {:induction false} MailIsLastSent(v: View, calls: seq<Call>, p: nat)
    requires Inv(v) && AllowedRun(v, calls) && p < NPROC
    ensures MailOf(KernelRun.Run(v, calls), p) == LastSent(v, calls, p)
    decreases |calls|
  {
    hide Inv, Apply, Allowed, AllowedRun, MailOf, Alive;
    if calls != [] {
      var n := |calls| - 1;
      BeforeLast(v, calls);
      MailIsLastSent(v, calls[..n], p);
      ApplyMail(KernelRun.Run(v, calls[..n]), calls[n], p);
    }
  }

  /** The call takes the message of p, or makes p another process. */
  predicate Ends(v: View, c: Call, p: nat) {
    (c.TakeMessage? && v.curr == p) || (c.NewProc? && c.pid == p)
  }

  predicate NeverEnds(v: View, calls: seq<Call>, p: nat)
    decreases |calls|
  {
    calls == [] || (!Ends(v, calls[0], p) && NeverEnds(Apply(v, calls[0]), calls[1..], p))
  }

  /** A message that is there stays as it is through every run in which its process
      does not take it. */
  lemma {:induction false} MailStays(v: View, calls: seq<Call>, p: nat)
    requires Inv(v) && AllowedRun(v, calls) && p < NPROC && NeverEnds(v, calls, p) && MailOf(v, p) != NoMail
    ensures MailOf(KernelRun.Run(v, calls), p) == MailOf(v, p)
    decreases |calls|
  {
    hide Inv, Apply, Allowed, MailOf;
    if calls != [] {
      ApplyMail(v, calls[0], p);
      ApplyKeeps(v, calls[0]);
      MailStays(Apply(v, calls[0]), calls[1..], p);
    }
  }

  /** A send is accepted exactly by a process that is there and has no message. What
      it sends is what the process then takes, whatever runs in between. */
  lemma SentIsReceived(v: View, p: nat, m: int, calls: seq<Call>)
    requires Inv(v) && p < NPROC && Alive(v, p) && MailOf(v, p) == NoMail
    requires AllowedRun(Apply(v, SendTo(p, m)), calls) && NeverEnds(Apply(v, SendTo(p, m)), calls, p)
    ensures var w := KernelRun.Run(Apply(v, SendTo(p, m)), calls);
            Inv(w) && Sizes(w) && w.procs[p].hasmsg && w.procs[p].msg == m
  {
    hide Inv, Apply, Alive, NeverEnds, AllowedRun;
    ApplyMail(v, SendTo(p, m), p);
    ApplyKeeps(v, SendTo(p, m));
    MailStays(Apply(v, SendTo(p, m)), calls, p);
    KernelRun.RunKeeps(Apply(v, SendTo(p, m)), calls);
    InvFree(KernelRun.Run(Apply(v, SendTo(p, m)), calls));
  }

  // ---------------------------------------------------------------- rest

  /** A process at rest stays so unless a call names it. */
  lemma RestStays(v: View, c: Call, p: nat)
    requires Inv(v) && Allowed(v, c) && p < NPROC && Sizes(v) && AtRest(v.procs[p].state)
    requires c != Finish(p) && !(c.NewProc? && c.pid == p)
    requires c == ResumeProc(p) ==> v.procs[p].state != PrSusp
    requires c.SendTo? && c.p == p ==> v.procs[p].state != PrRecv || MailOf(v, p) != NoMail
    ensures Sizes(Apply(v, c)) && Apply(v, c).procs[p].state == v.procs[p].state
  {
    InvFree(v);
    ApplyFrame(v, c);
    CurrentIs(v, p);
    WrittenOwn(v, c, p);
    FrameMail(Written(v, c), Apply(v, c), Moves(v, c), Works(v, c), p);
    hide Inv, Base, Settled, FreeOk, Frame, Written, Sleeps, Rescheduled, PutReady;
    if Moves(v, c) == p { NamedAtRest(v, c, p); }
  }

  lemma NamedAtRest(v: View, c: Call, p: nat)
    requires Sizes(v) && p < NPROC && AtRest(v.procs[p].state) && p != v.curr && Moves(v, c) == p
    requires c != Finish(p) && (c == ResumeProc(p) ==> v.procs[p].state != PrSusp)
    requires c.SendTo? ==> v.procs[p].state != PrRecv || MailOf(v, p) != NoMail
    ensures Sizes(Apply(v, c)) && Apply(v, c).procs[p].state == v.procs[p].state
  {
  }

  /** A call takes a process to the state its name says: killed is free, suspended
      at rest until resumed, and resumed, or a receiver with a message, at work. */
  lemma NamedState(v: View, c: Call, p: nat)
    requires Inv(v) && Allowed(v, c) && p < NPROC && p != NULLPROC && Sizes(v)
    ensures Sizes(Apply(v, c))
    ensures var st, st2 := v.procs[p].state, Apply(v, c).procs[p].state;
            && (c == Finish(p) ==> st2 == PrFree)
            && (c == SuspendProc(p) && AtWork(st) ==> st2 == PrSusp)
            && (c == ResumeProc(p) && st == PrSusp ==> AtWork(st2))
            && (c == Receive && p == v.curr && MailOf(v, p) == NoMail ==> st2 == PrRecv)
            && (c.SendTo? && c.p == p && (st == PrRecv || st == PrRecTim) && MailOf(v, p) == NoMail ==> AtWork(st2))
  {
    hide Inv, Base, Settled, FreeOk, Apply, Allowed, Rescheduled, Prep;
    InvFree(v);
    CurrentIs(v, p);
    ApplyKeeps(v, c);
    InvFree(Apply(v, c));
    ApplySplits(v, c);
    PrepReady(v, c);
    BaseSizes(Prep(v, c).v, -1, -1);
    PrepState(v, c, p);
    if Prep(v, c).resched { ReschedFrame(Prep(v, c).v); }
  }

  lemma PrepState(v: View, c: Call, p: nat)
    requires Inv(v) && p < NPROC && p != NULLPROC && Sizes(v) && Sizes(Prep(v, c).v)
    ensures var st, st2 := v.procs[p].state, Prep(v, c).v.procs[p].state;
            && (c == Finish(p) ==> st2 == PrFree)
            && (c == SuspendProc(p) && AtWork(st) ==> st2 == PrSusp)
            && (c == ResumeProc(p) && st == PrSusp ==> AtWork(st2))
            && (c == Receive && p == v.curr && MailOf(v, p) == NoMail ==> st2 == PrRecv)
            && (c.SendTo? && c.p == p && (st == PrRecv || st == PrRecTim) && MailOf(v, p) == NoMail ==> AtWork(st2))
  {
    hide Inv, Unready, Unsleep, Unwait, PutReady, SetState;
    if c == Finish(p) || c == SuspendProc(p) {
      UnreadyFrame(v, p);
      UnsleepFrame(v, p);
      WaiterSizes(v, p);
      StateSet(v, p);
      StateSet(Unready(v, p), p);
      StateSet(Unsleep(v, p), p);
      StateSet(Unwait(v, p), p);
    } else if c == ResumeProc(p) {
      PutReadyFacts(v, p);
    } else if c == Receive {
      StateSet(v, p);
    } else if c.SendTo? && c.p == p {
      var v1 := SetMsg(v, p, true, c.msg);
      UnsleepFrame(v1, p);
      PutReadyFacts(v1, p);
      PutReadyFacts(Unsleep(v1, p), p);
    }
  }

  lemma StateSet(v: View, p: nat)
    requires Sizes(v) && p < NPROC
    ensures forall st :: Sizes(SetState(v, p, st)) && SetState(v, p, st).procs[p].state == st
  {
  }

  lemma WaiterSizes(v: View, p: nat)
    requires Sizes(v)
    ensures Sizes(Unwait(v, p))
  {
    hide RemoveAt, Place;
  }

  predicate Names(c: Call, p: nat) {
    c == ResumeProc(p) || c == Finish(p) || (c.NewProc? && c.pid == p)
  }

  /** Who is suspended, a new process among them, neither runs nor is ready until it
      is resumed or killed. */
  lemma {:induction false} SuspendedStays(v: View, calls: seq<Call>, p: nat)
    requires Inv(v) && AllowedRun(v, calls) && p < NPROC && Sizes(v) && v.procs[p].state == PrSusp
    requires forall i :: 0 <= i < |calls| ==> !Names(calls[i], p)
    ensures var w := KernelRun.Run(v, calls); Sizes(w) && w.procs[p].state == PrSusp && w.curr != p
    decreases |calls|
  {
    hide Inv, Apply, Allowed;
    if calls == [] {
      CurrentIs(v, p);
    } else {
      assert !Names(calls[0], p);
      RestStays(v, calls[0], p);
      ApplyKeeps(v, calls[0]);
      SuspendedStays(Apply(v, calls[0]), calls[1..], p);
    }
  }

  /** A receiver is at rest without a message, or has one. */
  predicate Served(v: View, p: nat) {
    MailOf(v, p) != NoMail || (p < |v.procs| && v.procs[p].state == PrRecv)
  }

  lemma ServedStays(v: View, c: Call, p: nat)
    requires Inv(v) && Allowed(v, c) && p < NPROC && Served(v, p) && !Ends(v, c, p) && c != Finish(p)
    ensures Served(Apply(v, c), p)
  {
    hide Inv, Apply, Allowed;
    InvFree(v);
    ApplyMail(v, c, p);
    if MailOf(v, p) == NoMail && !(c.SendTo? && c.p == p) { RestStays(v, c, p); }
  }

  /** No message is missed: a process that waits for one goes on only when it has
      one. */
  lemma {:induction false} ReceiverIsServed(v: View, calls: seq<Call>, p: nat)
    requires Inv(v) && AllowedRun(v, calls) && p < NPROC && Served(v, p) && NeverEnds(v, calls, p)
    requires forall i :: 0 <= i < |calls| ==> calls[i] != Finish(p)
    ensures Served(KernelRun.Run(v, calls), p)
    decreases |calls|
  {
    hide Inv, Apply, Allowed, Served;
    if calls != [] {
      ServedStays(v, calls[0], p);
      ApplyKeeps(v, calls[0]);
      ReceiverIsServed(Apply(v, calls[0]), calls[1..], p);
    }
  }

  // ------------------------------------------------------------ creation

  /** The priority with which p was last created, or had before the run. */
  function Created(v: View, calls: seq<Call>, p: nat): int {
    if |calls| == 0 then (if p < |v.procs| then v.procs[p].prio else 0)
    else if calls[|calls| - 1].NewProc? && calls[|calls| - 1].pid == p then calls[|calls| - 1].prio
    else Created(v, calls[..|calls| - 1], p)
  }

  lemma ApplyPrio(v: View, c: Call, p: nat)
    requires Inv(v) && Allowed(v, c) && p < NPROC
    ensures Sizes(v) && Sizes(Apply(v, c))
    ensures Apply(v, c).procs[p].prio == if c.NewProc? && c.pid == p then c.prio else v.procs[p].prio
    ensures c.NewProc? && c.pid == p ==> Apply(v, c).procs[p].state == PrSusp && Apply(v, c).procs[p].parent == v.curr
    ensures c.NewProc? && c.pid == p ==> MailOf(Apply(v, c), p) == NoMail
  {
    hide Inv, Apply, Allowed, Frame, Written;
    InvFree(v);
    ApplyKeeps(v, c);
    InvFree(Apply(v, c));
    ApplyFrame(v, c);
    WrittenOwn(v, c, p);
    FrameMail(Written(v, c), Apply(v, c), Moves(v, c), Works(v, c), p);
  }

  /** Over every run a process has the priority it was created with. */
  lemma {:induction false} PriorityIsCreated(v: View, calls: seq<Call>, p: nat)
    requires Inv(v) && AllowedRun(v, calls) && p < NPROC
    ensures var w := KernelRun.Run(v, calls); Sizes(w) && w.procs[p].prio == Created(v, calls, p)
    decreases |calls|
  {
    hide Inv, Apply, Allowed, AllowedRun;
    InvFree(v);
    if calls != [] {
      var n := |calls| - 1;
      BeforeLast(v, calls);
      PriorityIsCreated(v, calls[..n], p);
      ApplyPrio(KernelRun.Run(v, calls[..n]), calls[n], p);
    }
  }
}
