/** The process table, the semaphores and the process lists together, as values:
    the invariant that ties every process's state to the list it is on, and the
    small steps the kernel's operations are made of. */
module Processes {
  import opened QueueTable
  import opened Queues
  import opened Delays

  const NULLPROC := 0
  const QUANTUM := 2
  const TIMEOUT: int := -3

  /** Number of the ready list and of the sleep queue; list s is the queue of
      semaphore s. */
  const READYLIST := NSEM
  const SLEEPQ := NSEM + 1

  datatype State = PrFree | PrCurr | PrReady | PrRecv | PrSleep | PrSusp | PrWait | PrRecTim
  datatype Proc = Proc(state: State, prio: int, sem: int, parent: nat, hasmsg: bool, msg: int)
  datatype Sentry = Sentry(used: bool, count: int)

  datatype View = View(lists: seq<seq<nat>>, where: seq<int>, key: seq<int>, procs: seq<Proc>, sems: seq<Sentry>,
                       curr: nat, ndefers: nat, attempt: bool)

  predicate Sizes(v: View) {
    && |v.lists| == NSEM + 2 && |v.where| == NPROC && |v.key| == NQENT && |v.procs| == NPROC && |v.sems| == NSEM
    && v.curr < NPROC
  }

  /** The list a process must be on. */
  function Home(r: Proc): int {
    match r.state
    case PrReady => READYLIST
    case PrWait => r.sem
    case PrSleep => SLEEPQ
    case PrRecTim => SLEEPQ
    case _ => -1
  }

  /** Each list holds the processes that where puts there, each once. */
  ghost predicate ListsOk(lists: seq<seq<nat>>, where: seq<int>) {
    && |lists| == NSEM + 2 && |where| == NPROC
    && (forall n :: 0 <= n < NSEM + 2 ==> Owned(where, lists[n], n))
    && (forall p :: 0 <= p < NPROC ==> -1 <= where[p] < NSEM + 2 && (where[p] >= 0 ==> p in lists[where[p]]))
  }

  /** A negative count is the number of waiters; otherwise there are none. */
  predicate SemOk(s: Sentry, waiters: nat) {
    waiters == if s.count < 0 then -s.count else 0
  }

  /** Nobody waits on a semaphore that is free. */
  ghost predicate FreeOk(sems: seq<Sentry>) {
    forall s :: 0 <= s < |sems| && !sems[s].used ==> sems[s].count >= 0
  }

  predicate ProcOk(v: View, p: nat)
    requires Sizes(v)
  {
    && p < NPROC
    && MINKEY < v.procs[p].prio <= MAXKEY
    && (v.procs[p].state == PrWait ==> 0 <= v.procs[p].sem < NSEM)
    && (v.procs[p].state == PrReady && v.where[p] == READYLIST ==> v.key[p] == v.procs[p].prio)
    && (p != v.curr ==> v.procs[p].state != PrCurr)
  }

  ghost predicate Sorted(list: seq<nat>, key: seq<int>) {
    forall j, k :: 0 <= j < k < |list| && list[j] < |key| && list[k] < |key| ==> key[list[j]] >= key[list[k]]
  }

  /** The sleep queue is a delta list; its first delta may be at -1 while a tick
      is being worked on. */
  predicate SleepOk(list: seq<nat>, key: seq<int>) {
    && Each(list) && Span(list, key) <= MAXKEY
    && (list != [] ==> At(key, list[0]) >= -1 && NonNegative(list[1..], key))
  }

  /** The longest time any process has to sleep. */
  function Span(list: seq<nat>, key: seq<int>): int {
    if list == [] then 0 else (if At(key, list[0]) < 0 then 0 else At(key, list[0])) + Total(list[1..], key)
  }

  /** No tick is being worked on. */
  predicate Settled(v: View) {
    SLEEPQ < |v.lists| && NonNegative(v.lists[SLEEPQ], v.key)
  }

  /** Every process is on the list its state says. Process x, if there is one, is
      between two lists: it is on none, whatever its state. */
  ghost predicate ProcsOk(v: View, x: int)
    requires Sizes(v)
  {
    && (forall p :: 0 <= p < NPROC ==> ProcOk(v, p) && v.where[p] == if p == x then -1 else Home(v.procs[p]))
    && (v.procs[NULLPROC].state == PrCurr || v.procs[NULLPROC].state == PrReady)
  }

  /** Counts and queues fit, but for semaphore y, if there is one, whose waiters
      are being released. */
  ghost predicate SemsOk(v: View, y: int)
    requires Sizes(v)
  {
    forall s :: 0 <= s < NSEM && s != y ==> SemOk(v.sems[s], |v.lists[s]|)
  }

  /** The global invariant, but for process x and semaphore y. */
  ghost predicate Base(v: View, x: int, y: int) {
    Sizes(v) && ListsOk(v.lists, v.where) && ProcsOk(v, x) && SemsOk(v, y) && Sorted(v.lists[READYLIST], v.key)
      && SleepOk(v.lists[SLEEPQ], v.key)
  }

  /** The current process has at least the priority of every ready one. */
  ghost predicate Top(v: View)
    requires Sizes(v)
  {
    forall k :: 0 <= k < |v.lists[READYLIST]| && v.lists[READYLIST][k] < NPROC ==>
      v.procs[v.lists[READYLIST][k]].prio <= v.procs[v.curr].prio
  }

  /** What holds between kernel calls: exactly the process that runs is current,
      and nobody ready outranks it unless a reschedule is put off. */
  ghost predicate Inv(v: View) {
    Base(v, -1, -1) && Settled(v) && FreeOk(v.sems) && v.procs[v.curr].state == PrCurr
      && (v.ndefers == 0 || !v.attempt ==> Top(v))
  }

  /** A process is READY exactly when on the ready list, WAIT exactly when on the
      queue of the semaphore it recorded, SLEEP or RECTIM exactly when on the sleep
      queue, and otherwise on no list; exactly one process is CURR. */
  lemma StateIsList(v: View, p: nat)
    requires Inv(v) && p < NPROC
    ensures v.procs[p].state == PrReady <==> p in v.lists[READYLIST]
    ensures forall s :: 0 <= s < NSEM ==> ((v.procs[p].state == PrWait && v.procs[p].sem == s) <==> p in v.lists[s])
    ensures v.procs[p].state == PrSleep || v.procs[p].state == PrRecTim <==> p in v.lists[SLEEPQ]
    ensures v.procs[p].state == PrCurr <==> p == v.curr
  {
    assert ProcOk(v, p);
    forall n | 0 <= n < NSEM + 2
      ensures p in v.lists[n] <==> v.where[p] == n
    {
      assert Owned(v.where, v.lists[n], n);
    }
  }

  /** A negative count is the number of processes that wait on the semaphore, and
      otherwise nobody does; all of them recorded it. */
  lemma CountIsWaiters(v: View, s: nat)
    requires Inv(v) && s < NSEM
    ensures |v.lists[s]| == if v.sems[s].count < 0 then -v.sems[s].count else 0
    ensures forall p :: p in v.lists[s] ==> p < NPROC && v.procs[p].state == PrWait && v.procs[p].sem == s
  {
    assert SemOk(v.sems[s], |v.lists[s]|);
    assert Owned(v.where, v.lists[s], s);
    forall p | p in v.lists[s]
      ensures p < NPROC && v.procs[p].state == PrWait && v.procs[p].sem == s
    {
      StateIsList(v, p);
    }
  }

  // ------------------------------------------------------------ list steps

  lemma OwnedOther(where: seq<int>, list: seq<nat>, n: int, p: nat, m: int)
    requires Owned(where, list, n) && p < NPROC && where[p] != n && m != n
    ensures Owned(where[p := m], list, n)
  {
  }

  lemma ListsInsert(v: View, n: nat, k: nat, p: nat)
    requires Sizes(v) && ListsOk(v.lists, v.where) && n < NSEM + 2 && k <= |v.lists[n]| && p < NPROC && v.where[p] == -1
    ensures ListsOk(v.lists[n := InsertAt(v.lists[n], k, p)], v.where[p := n])
  {
    var v2 := v.(lists := v.lists[n := InsertAt(v.lists[n], k, p)], where := v.where[p := n]);
    hide InsertAt;
    forall m | 0 <= m < NSEM + 2
      ensures Owned(v2.where, v2.lists[m], m)
    {
      assert Owned(v.where, v.lists[m], m);
      if m == n { OwnedInsert(v.where, v.lists[n], n, k, p); } else { OwnedOther(v.where, v.lists[m], m, p, n); }
    }
    forall q | 0 <= q < NPROC && v2.where[q] >= 0
      ensures q in v2.lists[v2.where[q]]
    {
      InsertMember(v.lists[n], k, p, q);
    }
  }

  lemma ListsRemove(v: View, n: nat, k: nat)
    requires Sizes(v) && ListsOk(v.lists, v.where) && n < NSEM + 2 && k < |v.lists[n]|
    ensures v.lists[n][k] < NPROC && v.where[v.lists[n][k]] == n
    ensures ListsOk(v.lists[n := RemoveAt(v.lists[n], k)], v.where[v.lists[n][k] := -1])
  {
    assert Owned(v.where, v.lists[n], n);
    var p := v.lists[n][k];
    var v2 := v.(lists := v.lists[n := RemoveAt(v.lists[n], k)], where := v.where[p := -1]);
    hide RemoveAt;
    forall m | 0 <= m < NSEM + 2
      ensures Owned(v2.where, v2.lists[m], m)
    {
      assert Owned(v.where, v.lists[m], m);
      if m == n { OwnedRemove(v.where, v.lists[n], n, k); } else { OwnedOther(v.where, v.lists[m], m, p, -1); }
    }
    forall q | 0 <= q < NPROC && v2.where[q] >= 0
      ensures q in v2.lists[v2.where[q]]
    {
      RemoveMember(v.where, v.lists[n], n, k, q);
    }
  }

  lemma ReadyRange(v: View)
    requires Sizes(v) && ListsOk(v.lists, v.where)
    ensures forall n, j :: 0 <= n < NSEM + 2 && 0 <= j < |v.lists[n]| ==>
              v.lists[n][j] < NPROC && v.where[v.lists[n][j]] == n
  {
    forall n, j | 0 <= n < NSEM + 2 && 0 <= j < |v.lists[n]|
      ensures v.lists[n][j] < NPROC && v.where[v.lists[n][j]] == n
    {
      assert Owned(v.where, v.lists[n], n);
    }
  }

  /** Changing the key of a process that is not asleep leaves the sleepers alone. */
  lemma SleepersApart(v: View, key2: seq<int>)
    requires Sizes(v) && ListsOk(v.lists, v.where) && SleepOk(v.lists[SLEEPQ], v.key)
    requires |key2| == |v.key| && forall p :: 0 <= p < NPROC && v.where[p] == SLEEPQ ==> key2[p] == v.key[p]
    ensures SleepOk(v.lists[SLEEPQ], key2)
    ensures NonNegative(v.lists[SLEEPQ], key2) <==> NonNegative(v.lists[SLEEPQ], v.key)
    ensures Times(v.lists[SLEEPQ], key2, 0) == Times(v.lists[SLEEPQ], v.key, 0)
  {
    hide Times, Total, NonNegative, Each;
    assert Owned(v.where, v.lists[SLEEPQ], SLEEPQ);
    var list := v.lists[SLEEPQ];
    forall p | p in list
      ensures At(key2, p) == At(v.key, p)
    {
      var j :| 0 <= j < |list| && list[j] == p;
    }
    KeysElsewhere(list, v.key, key2, 0);
    if list != [] {
      assert forall p :: p in list[1..] ==> p in list;
      KeysElsewhere(list[1..], v.key, key2, 0);
      assert list[0] in list;
    }
  }

  // ------------------------------------------------------------ ready

  predicate ReadyKeys(list: seq<nat>, n: nat) {
    forall j :: 0 <= j < |list| ==> list[j] < n
  }

  /** Where a process of the given priority joins the ready list. */
  function ReadyPlace(v: View, prio: int): (k: nat)
    requires Sizes(v)
    ensures k <= |v.lists[READYLIST]|
  {
    if ReadyKeys(v.lists[READYLIST], |v.key|) then KeyPlace(v.lists[READYLIST], v.key, prio) else 0
  }

  /** Process p becomes ready: behind every ready process of its priority or a
      higher one. */
  function PutReady(v: View, p: nat): View {
    if !Sizes(v) || p >= NPROC then v else
      var prio := v.procs[p].prio;
      v.(lists := v.lists[READYLIST := InsertAt(v.lists[READYLIST], ReadyPlace(v, prio), p)],
         where := v.where[p := READYLIST], key := v.key[p := prio],
         procs := v.procs[p := v.procs[p].(state := PrReady)])
  }

  lemma SortedInsert(list: seq<nat>, key: seq<int>, p: nat, x: int)
    requires ReadyKeys(list, |key|) && Sorted(list, key) && p < |key| && p !in list
    ensures Sorted(InsertAt(list, KeyPlace(list, key, x), p), key[p := x])
  {
    KeyPlaceOrders(list, key, x);
    var k := KeyPlace(list, key, x);
    hide KeyPlace;
    forall i, j | 0 <= i < j < |InsertAt(list, k, p)|
      ensures key[p := x][InsertAt(list, k, p)[i]] >= key[p := x][InsertAt(list, k, p)[j]]
    {
      InsertedKey(list, key, k, p, x, i);
      InsertedKey(list, key, k, p, x, j);
      if i == k && k < |list| && j - 1 > k { assert key[list[k]] >= key[list[j - 1]]; }
    }
  }

  lemma InsertedKey(list: seq<nat>, key: seq<int>, k: nat, p: nat, x: int, i: nat)
    requires ReadyKeys(list, |key|) && p < |key| && p !in list && k <= |list| && i <= |list|
    ensures InsertAt(list, k, p)[i] < |key|
    ensures key[p := x][InsertAt(list, k, p)[i]] == if i == k then x else key[list[if i < k then i else i - 1]]
  {
    if i != k { assert list[if i < k then i else i - 1] in list; }
  }

  lemma NotOn(v: View, p: nat)
    requires Sizes(v) && ListsOk(v.lists, v.where) && p < NPROC && v.where[p] == -1
    ensures forall n :: 0 <= n < NSEM + 2 ==> p !in v.lists[n]
  {
    ReadyRange(v);
  }

  lemma PutReadyProcs(v: View, p: nat)
    requires Sizes(v) && ListsOk(v.lists, v.where) && ProcsOk(v, p) && p < NPROC
    ensures ProcsOk(PutReady(v, p), -1)
  {
    hide InsertAt, ListsOk, ReadyPlace;
    var v2 := PutReady(v, p);
    forall q | 0 <= q < NPROC
      ensures ProcOk(v2, q) && v2.where[q] == Home(v2.procs[q])
    {
      assert ProcOk(v, q);
    }
  }

  lemma PutReadyKeeps(v: View, p: nat, y: int)
    requires Base(v, p, y) && p < NPROC && v.where[p] == -1
    ensures Base(PutReady(v, p), -1, y) && (Settled(v) ==> Settled(PutReady(v, p)))
  {
    hide InsertAt, Sorted, SleepOk, ListsOk, KeyPlace, ProcsOk, SemOk;
    ReadyRange(v);
    NotOn(v, p);
    assert ReadyKeys(v.lists[READYLIST], |v.key|);
    var v2 := PutReady(v, p);
    ListsInsert(v, READYLIST, ReadyPlace(v, v.procs[p].prio), p);
    SleepersApart(v, v2.key);
    SortedInsert(v.lists[READYLIST], v.key, p, v.procs[p].prio);
    PutReadyProcs(v, p);
  }

  // ------------------------------------------------------- leaving a list

  lemma SortedRemove(list: seq<nat>, key: seq<int>, k: nat)
    requires Sorted(list, key) && k < |list|
    ensures Sorted(RemoveAt(list, k), key)
  {
    var less := RemoveAt(list, k);
    forall i, j | 0 <= i < j < |less| && less[i] < |key| && less[j] < |key|
      ensures key[less[i]] >= key[less[j]]
    {
      assert less[i] == list[if i < k then i else i + 1] && less[j] == list[if j < k then j else j + 1];
    }
  }

  /** The process at place k of list n is taken off it. */
  function TakeOut(v: View, n: nat, k: nat): View {
    if n < |v.lists| && k < |v.lists[n]| && v.lists[n][k] < |v.where| then
      v.(lists := v.lists[n := RemoveAt(v.lists[n], k)], where := v.where[v.lists[n][k] := -1])
    else v
  }

  lemma TakeOutProcs(v: View, n: nat, k: nat)
    requires Sizes(v) && ListsOk(v.lists, v.where) && ProcsOk(v, -1) && n < NSEM + 2 && k < |v.lists[n]|
    requires v.lists[n][k] < NPROC
    ensures ProcsOk(TakeOut(v, n, k), v.lists[n][k])
  {
    hide RemoveAt, ListsOk;
    var v2 := TakeOut(v, n, k);
    forall q | 0 <= q < NPROC
      ensures ProcOk(v2, q) && v2.where[q] == if q == v.lists[n][k] then -1 else Home(v2.procs[q])
    {
      assert ProcOk(v, q);
    }
  }

  /** getitem or dequeue on the ready list. */
  lemma LeaveReadyKeeps(v: View, k: nat)
    requires Base(v, -1, -1) && k < |v.lists[READYLIST]|
    ensures v.lists[READYLIST][k] < NPROC && Base(TakeOut(v, READYLIST, k), v.lists[READYLIST][k], -1)
    ensures Settled(v) ==> Settled(TakeOut(v, READYLIST, k))
  {
    hide RemoveAt, Sorted, SleepOk, ListsOk, ProcsOk, SemOk;
    ListsRemove(v, READYLIST, k);
    TakeOutProcs(v, READYLIST, k);
    SortedRemove(v.lists[READYLIST], v.key, k);
  }

  /** A process leaves the queue of semaphore s and its count is given back. */
  function LeaveSem(v: View, s: nat, k: nat): View {
    if s < |v.sems| then TakeOut(v, s, k).(sems := v.sems[s := v.sems[s].(count := v.sems[s].count + 1)]) else v
  }

  lemma LeaveSemKeeps(v: View, s: nat, k: nat)
    requires Base(v, -1, -1) && s < NSEM && k < |v.lists[s]|
    ensures v.lists[s][k] < NPROC && Base(LeaveSem(v, s, k), v.lists[s][k], -1)
    ensures Settled(v) ==> Settled(LeaveSem(v, s, k))
  {
    assert SemOk(v.sems[s], |v.lists[s]|);
    hide RemoveAt, Sorted, SleepOk, ListsOk;
    ListsRemove(v, s, k);
    TakeOutProcs(v, s, k);
    var v1, v2 := TakeOut(v, s, k), LeaveSem(v, s, k);
    SemCountApart(v1, s, v.sems[s].count + 1, v.lists[s][k]);
  }

  /** The count of a semaphore that stays in use concerns no process. */
  lemma SemCountApart(v: View, s: nat, count: int, x: int)
    requires Sizes(v) && ProcsOk(v, x) && s < NSEM
    ensures ProcsOk(v.(sems := v.sems[s := v.sems[s].(count := count)]), x)
  {
    var v2 := v.(sems := v.sems[s := v.sems[s].(count := count)]);
    forall q | 0 <= q < NPROC
      ensures ProcOk(v2, q) && v2.where[q] == if q == x then -1 else Home(v2.procs[q])
    {
      assert ProcOk(v, q);
    }
  }

  /** unsleep: the process leaves, and the next one keeps its time. */
  function LeaveSleep(v: View, k: nat): View {
    if Sizes(v) && k < |v.lists[SLEEPQ]| && InRange(v.lists[SLEEPQ], v.key) then
      TakeOut(v, SLEEPQ, k).(key := UnsleepKeys(v.lists[SLEEPQ], v.key, k))
    else v
  }

  lemma EachOwned(where: seq<int>, list: seq<nat>, n: int)
    requires Owned(where, list, n)
    ensures Each(list)
    decreases |list|
  {
    if list != [] {
      assert forall j :: 0 <= j < |list[1..]| ==> list[1..][j] == list[j + 1];
      EachOwned(where, list[1..], n);
    }
  }

  lemma SpanTotal(list: seq<nat>, key: seq<int>)
    requires NonNegative(list, key)
    ensures Span(list, key) == Total(list, key)
    ensures list != [] ==> At(key, list[0]) >= 0 && NonNegative(list[1..], key)
  {
  }

  /** The sleep queue as a list of its own. */
  lemma Sleepers(v: View, x: int)
    requires Base(v, x, -1) && Settled(v)
    ensures InRange(v.lists[SLEEPQ], v.key) && Each(v.lists[SLEEPQ]) && Total(v.lists[SLEEPQ], v.key) <= MAXKEY
    ensures forall j :: 0 <= j < |v.lists[SLEEPQ]| ==>
              v.lists[SLEEPQ][j] < NPROC && v.where[v.lists[SLEEPQ][j]] == SLEEPQ
  {
    hide Total, Each, NonNegative, Span;
    ReadyRange(v);
    SpanTotal(v.lists[SLEEPQ], v.key);
  }

  lemma LeaveSleepTimes(v: View, k: nat)
    requires Base(v, -1, -1) && Settled(v) && k < |v.lists[SLEEPQ]|
    ensures ListsOk(LeaveSleep(v, k).lists, LeaveSleep(v, k).where)
    ensures SleepOk(LeaveSleep(v, k).lists[SLEEPQ], LeaveSleep(v, k).key) && Settled(LeaveSleep(v, k))
    ensures Times(LeaveSleep(v, k).lists[SLEEPQ], LeaveSleep(v, k).key, 0) ==
              Times(v.lists[SLEEPQ], v.key, 0) - {v.lists[SLEEPQ][k]}
  {
    hide RemoveAt, ListsOk, Times, Total, NonNegative, Each, Span, ProcsOk, SemsOk, UnsleepKeys;
    var list, v2 := v.lists[SLEEPQ], LeaveSleep(v, k);
    Sleepers(v, -1);
    ListsRemove(v, SLEEPQ, k);
    UnsleepTimes(list, v.key, k, 0);
    SpanTotal(v2.lists[SLEEPQ], v2.key);
    StillOwned(v2);
    EachOwned(v2.where, v2.lists[SLEEPQ], SLEEPQ);
  }

  lemma LeaveSleepKeeps(v: View, k: nat)
    requires Base(v, -1, -1) && Settled(v) && k < |v.lists[SLEEPQ]|
    ensures v.lists[SLEEPQ][k] < NPROC && Base(LeaveSleep(v, k), v.lists[SLEEPQ][k], -1) && Settled(LeaveSleep(v, k))
    ensures Times(LeaveSleep(v, k).lists[SLEEPQ], LeaveSleep(v, k).key, 0) ==
              Times(v.lists[SLEEPQ], v.key, 0) - {v.lists[SLEEPQ][k]}
  {
    hide RemoveAt, Sorted, ListsOk, SemOk, Times, SleepOk, ProcsOk, Settled, UnsleepKeys;
    Sleepers(v, -1);
    LeaveSleepTimes(v, k);
    TakeOutProcs(v, SLEEPQ, k);
    ListsRemove(v, SLEEPQ, k);
    KeysApart(v, LeaveSleep(v, k).key, k);
    KeysOfReady(TakeOut(v, SLEEPQ, k), LeaveSleep(v, k).key, v.lists[SLEEPQ][k]);
  }

  lemma StillOwned(v: View)
    requires ListsOk(v.lists, v.where)
    ensures Owned(v.where, v.lists[SLEEPQ], SLEEPQ)
  {
  }

  /** unsleep changes the key of a sleeper only. */
  lemma KeysApart(v: View, key2: seq<int>, k: nat)
    requires Sizes(v) && ListsOk(v.lists, v.where) && k < |v.lists[SLEEPQ]| && InRange(v.lists[SLEEPQ], v.key)
    requires key2 == UnsleepKeys(v.lists[SLEEPQ], v.key, k)
    ensures forall p :: 0 <= p < NPROC && v.where[p] != SLEEPQ ==> key2[p] == v.key[p]
  {
    assert Owned(v.where, v.lists[SLEEPQ], SLEEPQ);
  }

  /** The ready list does not depend on the keys of other processes. */
  lemma KeysOfReady(v: View, key2: seq<int>, x: int)
    requires Sizes(v) && ListsOk(v.lists, v.where) && ProcsOk(v, x) && Sorted(v.lists[READYLIST], v.key)
    requires |key2| == |v.key|
    requires forall p :: 0 <= p < NPROC && v.where[p] == READYLIST ==> key2[p] == v.key[p]
    ensures Sorted(v.lists[READYLIST], key2) && ProcsOk(v.(key := key2), x)
  {
    assert Owned(v.where, v.lists[READYLIST], READYLIST);
    var v2 := v.(key := key2);
    forall q | 0 <= q < NPROC
      ensures ProcOk(v2, q) && v2.where[q] == if q == x then -1 else Home(v2.procs[q])
    {
      assert ProcOk(v, q);
    }
  }

  // --------------------------------------------------- joining a list

  /** A process that is on no list comes to rest in a state that has none. */
  function SetState(v: View, p: nat, st: State): View {
    if p < |v.procs| then v.(procs := v.procs[p := v.procs[p].(state := st)]) else v
  }

  lemma SetStateKeeps(v: View, p: nat, st: State)
    requires Base(v, p, -1) && p < NPROC && p != NULLPROC && (st == PrFree || st == PrRecv || st == PrSusp)
    ensures Base(SetState(v, p, st), -1, -1) && (Settled(v) ==> Settled(SetState(v, p, st)))
  {
    hide ListsOk, SemOk, SleepOk, Sorted;
    var v2 := SetState(v, p, st);
    forall q | 0 <= q < NPROC
      ensures ProcOk(v2, q) && v2.where[q] == Home(v2.procs[q])
    {
      assert ProcOk(v, q);
    }
  }

  /** Between lists or not makes no difference for a process that needs none. */
  lemma OffList(v: View, p: nat)
    requires Sizes(v) && p < NPROC && Home(v.procs[p]) == -1
    ensures forall y :: Base(v, -1, y) <==> Base(v, p, y)
  {
  }

  /** wait, when it must block: the current process joins the queue's end. */
  function Block(v: View, s: nat): View {
    if Sizes(v) && s < NSEM then
      v.(sems := v.sems[s := v.sems[s].(count := v.sems[s].count - 1)],
         procs := v.procs[v.curr := v.procs[v.curr].(state := PrWait, sem := s)],
         lists := v.lists[s := v.lists[s] + [v.curr]], where := v.where[v.curr := s])
    else v
  }

  lemma BlockKeeps(v: View, s: nat)
    requires Base(v, -1, -1) && s < NSEM && v.procs[v.curr].state == PrCurr && v.curr != NULLPROC
    requires v.sems[s].count <= 0
    ensures Base(Block(v, s), -1, -1) && (Settled(v) ==> Settled(Block(v, s)))
  {
    assert SemOk(v.sems[s], |v.lists[s]|) && ProcOk(v, v.curr);
    var v2 := Block(v, s);
    assert InsertAt(v.lists[s], |v.lists[s]|, v.curr) == v.lists[s] + [v.curr];
    ListsInsert(v, s, |v.lists[s]|, v.curr);
    hide ListsOk, SleepOk, Sorted;
    forall q | 0 <= q < NPROC
      ensures ProcOk(v2, q) && v2.where[q] == Home(v2.procs[q])
    {
      assert ProcOk(v, q);
    }
  }

  /** A process that is on no list goes to sleep for d ticks. */
  function Sleeps(v: View, p: nat, d: int, st: State): View {
    if Sizes(v) && p < NPROC && InRange(v.lists[SLEEPQ], v.key) then
      var list := v.lists[SLEEPQ];
      v.(lists := v.lists[SLEEPQ := InsertAt(list, DeltaPlace(list, v.key, d), p)], where := v.where[p := SLEEPQ],
         key := DeltaKeys(list, v.key, p, d), procs := v.procs[p := v.procs[p].(state := st)])
    else v
  }

  lemma {:induction false} DeltaKeysOnly(list: seq<nat>, key: seq<int>, p: nat, d: int, where: seq<int>)
    requires InRange(list, key) && p < |key|
    requires forall j :: 0 <= j < |list| ==> list[j] < |where| && where[list[j]] == SLEEPQ
    ensures forall q :: 0 <= q < |key| && q < |where| && where[q] != SLEEPQ && q != p ==>
              DeltaKeys(list, key, p, d)[q] == key[q]
  {
    forall q | 0 <= q < |key| && q < |where| && where[q] != SLEEPQ && q != p
      ensures DeltaKeys(list, key, p, d)[q] == key[q]
    {
      DeltaKeysElsewhere(list, key, p, d, q);
    }
  }

  lemma SleepsTimes(v: View, p: nat, d: int, st: State)
    requires Base(v, p, -1) && Settled(v) && p < NPROC && v.where[p] == -1 && 0 <= d <= MAXKEY
    ensures ListsOk(Sleeps(v, p, d, st).lists, Sleeps(v, p, d, st).where)
    ensures SleepOk(Sleeps(v, p, d, st).lists[SLEEPQ], Sleeps(v, p, d, st).key) && Settled(Sleeps(v, p, d, st))
    ensures Times(Sleeps(v, p, d, st).lists[SLEEPQ], Sleeps(v, p, d, st).key, 0) ==
              Times(v.lists[SLEEPQ], v.key, 0)[p := d]
  {
    hide InsertAt, ListsOk, Times, Total, NonNegative, Each, Span, DeltaKeys, DeltaPlace, ProcsOk, SemsOk, Sorted;
    var list, v2 := v.lists[SLEEPQ], Sleeps(v, p, d, st);
    Sleepers(v, p);
    NotOn(v, p);
    InsertdTimes(list, v.key, p, d, 0);
    ListsInsert(v, SLEEPQ, DeltaPlace(list, v.key, d), p);
    SpanTotal(v2.lists[SLEEPQ], v2.key);
    StillOwned(v2);
    EachOwned(v2.where, v2.lists[SLEEPQ], SLEEPQ);
  }

  lemma SleepsKeeps(v: View, p: nat, d: int, st: State)
    requires Base(v, p, -1) && Settled(v) && p < NPROC && p != NULLPROC && 0 <= d <= MAXKEY
    requires st == PrSleep || st == PrRecTim
    ensures Base(Sleeps(v, p, d, st), -1, -1) && Settled(Sleeps(v, p, d, st))
    ensures Times(Sleeps(v, p, d, st).lists[SLEEPQ], Sleeps(v, p, d, st).key, 0) ==
              Times(v.lists[SLEEPQ], v.key, 0)[p := d]
  {
    hide InsertAt, Sorted, ListsOk, SemOk, Times, SleepOk, DeltaKeys, DeltaPlace, Settled;
    Sleepers(v, p);
    SleepsTimes(v, p, d, st);
    SleepsProcs(v, p, d, st);
  }

  lemma SleepsProcs(v: View, p: nat, d: int, st: State)
    requires Sizes(v) && ListsOk(v.lists, v.where) && ProcsOk(v, p) && Sorted(v.lists[READYLIST], v.key) && p < NPROC
    requires p != NULLPROC
    requires InRange(v.lists[SLEEPQ], v.key) && (st == PrSleep || st == PrRecTim)
    ensures ProcsOk(Sleeps(v, p, d, st), -1) && Sorted(Sleeps(v, p, d, st).lists[READYLIST], Sleeps(v, p, d, st).key)
  {
    var v2 := Sleeps(v, p, d, st);
    assert Owned(v.where, v.lists[SLEEPQ], SLEEPQ);
    DeltaKeysOnly(v.lists[SLEEPQ], v.key, p, d, v.where);
    KeysOfReady(v, v2.key, p);
    hide InsertAt, ListsOk, DeltaKeys, DeltaPlace, Sorted;
    forall q | 0 <= q < NPROC
      ensures ProcOk(v2, q) && v2.where[q] == Home(v2.procs[q])
    {
      assert ProcOk(v, q) && ProcOk(v.(key := v2.key), q);
    }
  }

  // -------------------------------------------------------------- dispatch

  /** The first ready process becomes the current one. */
  function Dispatch(v: View): View {
    if Sizes(v) && v.lists[READYLIST] != [] && v.lists[READYLIST][0] < NPROC then
      var p := v.lists[READYLIST][0];
      v.(lists := v.lists[READYLIST := v.lists[READYLIST][1..]], where := v.where[p := -1],
         procs := v.procs[p := v.procs[p].(state := PrCurr)], curr := p)
    else v
  }

  lemma DispatchKeeps(v: View)
    requires Base(v, -1, -1) && v.procs[v.curr].state != PrCurr && v.lists[READYLIST] != []
    ensures Base(Dispatch(v), -1, -1) && (Settled(v) ==> Settled(Dispatch(v)))
    ensures v.lists[READYLIST][0] < NPROC && Dispatch(v).curr == v.lists[READYLIST][0]
    ensures Dispatch(v).procs[Dispatch(v).curr].state == PrCurr
    ensures Top(Dispatch(v))
  {
    hide ListsOk, SemOk, SleepOk, RemoveAt, Sorted, ProcsOk, Settled;
    var v1 := TakeOut(v, READYLIST, 0);
    LeaveReadyKeeps(v, 0);
    FirstOut(v.lists[READYLIST]);
    TopFirst(v);
    DispatchProcs(v);
    SettledSame(v1, Dispatch(v));
  }

  lemma FirstOut(list: seq<nat>)
    requires list != []
    ensures RemoveAt(list, 0) == list[1..]
  {
  }

  lemma SettledSame(v: View, v2: View)
    requires v.lists == v2.lists && v.key == v2.key
    ensures Settled(v) <==> Settled(v2)
  {
  }

  lemma DispatchProcs(v: View)
    requires Base(v, -1, -1) && v.procs[v.curr].state != PrCurr && v.lists[READYLIST] != []
    requires v.lists[READYLIST][0] < NPROC
    ensures ProcsOk(Dispatch(v), -1)
  {
    hide ListsOk, SemOk, SleepOk, RemoveAt, Sorted;
    var v2 := Dispatch(v);
    forall q | 0 <= q < NPROC
      ensures ProcOk(v2, q) && v2.where[q] == Home(v2.procs[q])
    {
      assert ProcOk(v, q);
    }
  }

  /** The first ready process outranks all others. */
  lemma TopFirst(v: View)
    requires Base(v, -1, -1) && v.lists[READYLIST] != []
    ensures forall k :: 0 <= k < |v.lists[READYLIST]| ==>
              v.lists[READYLIST][k] < NPROC
                && v.procs[v.lists[READYLIST][k]].prio <= v.procs[v.lists[READYLIST][0]].prio
    ensures forall k :: 0 <= k < |v.lists[READYLIST]| ==>
              v.key[v.lists[READYLIST][k]] == v.procs[v.lists[READYLIST][k]].prio
  {
    ReadyRange(v);
    forall k | 0 <= k < |v.lists[READYLIST]|
      ensures v.key[v.lists[READYLIST][k]] == v.procs[v.lists[READYLIST][k]].prio
      ensures v.procs[v.lists[READYLIST][k]].prio <= v.procs[v.lists[READYLIST][0]].prio
    {
      assert ProcOk(v, v.lists[READYLIST][k]) && ProcOk(v, v.lists[READYLIST][0]);
    }
  }

  // --------------------------------------------------------------- resched

  /** What resched does: nothing but note the attempt while it is put off; keep a
      current process that outranks the ready ones; otherwise let the first ready
      process run, after its equals. */
  function Rescheduled(v: View): View {
    if !Sizes(v) then v
    else if v.ndefers > 0 then v.(attempt := true)
    else if v.procs[v.curr].state == PrCurr then
      if v.lists[READYLIST] == [] || v.procs[v.curr].prio > At(v.key, v.lists[READYLIST][0]) then v
      else Dispatch(PutReady(v, v.curr))
    else Dispatch(v)
  }

  /** Somebody is ready when the current process is not to go on: the null
      process, if nobody else. */
  lemma SomeoneReady(v: View)
    requires Base(v, -1, -1) && v.procs[v.curr].state != PrCurr
    ensures v.lists[READYLIST] != []
  {
    assert ProcOk(v, NULLPROC) && v.where[NULLPROC] == READYLIST;
  }

  lemma ReschedKeeps(v: View)
    requires Base(v, -1, -1) && Settled(v) && FreeOk(v.sems) && (v.procs[v.curr].state == PrCurr || v.ndefers == 0)
    ensures Inv(Rescheduled(v))
    ensures v.ndefers == 0 ==> Top(Rescheduled(v))
  {
    hide ListsOk, SemOk, SleepOk, Sorted, ProcsOk, Settled;
    if v.ndefers == 0 {
      if v.procs[v.curr].state == PrCurr {
        if v.lists[READYLIST] != [] {
          TopFirst(v);
          if v.procs[v.curr].prio <= v.key[v.lists[READYLIST][0]] {
            OffList(v, v.curr);
            CurrentOff(v);
            PutReadyKeeps(v, v.curr, -1);
            SomeoneReady(PutReady(v, v.curr));
            DispatchKeeps(PutReady(v, v.curr));
          }
        }
      } else {
        SomeoneReady(v);
        DispatchKeeps(v);
      }
    } else {
      DeferApart(v, v.ndefers, true, -1);
    }
  }

  /** The deferral of rescheduling concerns no process and no list. */
  lemma DeferApart(v: View, ndefers: nat, attempt: bool, y: int)
    requires Base(v, -1, y)
    ensures Base(v.(ndefers := ndefers, attempt := attempt), -1, y)
    ensures Settled(v) ==> Settled(v.(ndefers := ndefers, attempt := attempt))
  {
    hide ListsOk, SemOk, SleepOk, Sorted;
    var v2 := v.(ndefers := ndefers, attempt := attempt);
    forall q | 0 <= q < NPROC
      ensures ProcOk(v2, q) && v2.where[q] == Home(v2.procs[q])
    {
      assert ProcOk(v, q);
    }
  }

  lemma CurrentOff(v: View)
    requires Base(v, -1, -1) && v.procs[v.curr].state == PrCurr
    ensures v.where[v.curr] == -1
  {
    assert ProcOk(v, v.curr);
  }

  /** resched_cntl. */
  function DeferStart(v: View): View {
    v.(attempt := if v.ndefers == 0 then false else v.attempt, ndefers := v.ndefers + 1)
  }

  function DeferStop(v: View): View {
    if v.ndefers == 0 then v
    else
      var v1 := v.(ndefers := v.ndefers - 1);
      if v1.ndefers == 0 && v1.attempt then Rescheduled(v1) else v1
  }

  lemma TopSame(v: View, v2: View)
    requires Sizes(v) && Sizes(v2) && v2.lists[READYLIST] == v.lists[READYLIST] && v2.procs == v.procs
    requires v2.curr == v.curr
    ensures Top(v) <==> Top(v2)
  {
  }

  lemma DeferStartKeeps(v: View)
    requires Inv(v)
    ensures Inv(DeferStart(v))
  {
    hide ListsOk, SemOk, SleepOk, Sorted, ProcsOk, Settled, Top;
    DeferApart(v, DeferStart(v).ndefers, DeferStart(v).attempt, -1);
    TopSame(v, DeferStart(v));
  }

  lemma DeferStopKeeps(v: View)
    requires Base(v, -1, -1) && Settled(v) && FreeOk(v.sems) && v.procs[v.curr].state == PrCurr && v.ndefers > 0
    requires !v.attempt ==> Top(v)
    ensures Inv(DeferStop(v))
  {
    hide ListsOk, SemOk, SleepOk, Sorted, ProcsOk, Settled, Top;
    var v1 := v.(ndefers := v.ndefers - 1);
    DeferApart(v, v.ndefers - 1, v.attempt, -1);
    TopSame(v, v1);
    if v1.ndefers == 0 && v1.attempt {
      ReschedKeeps(v1);
    }
  }

  /** The waiter at place k leaves the queue of semaphore s, whose count is set
      afterwards. */
  lemma TakeOutSemKeeps(v: View, s: nat, k: nat)
    requires Base(v, -1, s) && s < NSEM && k < |v.lists[s]|
    ensures v.lists[s][k] < NPROC && Base(TakeOut(v, s, k), v.lists[s][k], s)
    ensures Settled(v) ==> Settled(TakeOut(v, s, k))
  {
    hide RemoveAt, Sorted, SleepOk, ListsOk, ProcsOk, SemOk;
    ListsRemove(v, s, k);
    TakeOutProcs(v, s, k);
  }

  /** Setting the count of a semaphore nobody waits on any more. */
  lemma SetCountKeeps(v: View, s: nat, e: Sentry, y: int)
    requires Base(v, -1, y) && (y == s || y == -1) && s < NSEM && SemOk(e, |v.lists[s]|)
    ensures Base(v.(sems := v.sems[s := e]), -1, -1)
    ensures Settled(v) ==> Settled(v.(sems := v.sems[s := e]))
  {
    hide ListsOk, SleepOk, Sorted, SemOk;
    var v2 := v.(sems := v.sems[s := e]);
    forall q | 0 <= q < NPROC
      ensures ProcOk(v2, q) && v2.where[q] == Home(v2.procs[q])
    {
      assert ProcOk(v, q);
    }
  }
}
