/** The queue of page frames in the order they were allocated: a doubly linked
    list through the frame table, with its own head. */
module PagingFifo {
  import opened PagingTables

  /** A link is the index of a frame, HEAD for the head of the list, or NIL. */
  const HEAD := NFRAMES
  const NIL: int := -1

  /** Entry k of the queue, its head before the first and NIL after the last. */
  function Item(fifo: seq<nat>, k: int): int {
    if k < 0 then HEAD else if k < |fifo| then fifo[k] else NIL
  }

  ghost predicate Distinct(fifo: seq<nat>) {
    && (forall k :: 0 <= k < |fifo| ==> fifo[k] < NFRAMES)
    && (forall j, k :: 0 <= j < k < |fifo| ==> fifo[j] != fifo[k])
  }

  /** Entry k of the queue, or its head, and the entry after it point at each
      other. */
  predicate Joined(next: seq<int>, prev: seq<int>, fifo: seq<nat>, k: int) {
    && |next| == |prev| == NFRAMES + 1
    && 0 <= Item(fifo, k) <= HEAD && next[Item(fifo, k)] == Item(fifo, k + 1)
    && (Item(fifo, k + 1) != NIL ==> 0 <= Item(fifo, k + 1) < HEAD && prev[Item(fifo, k + 1)] == Item(fifo, k))
  }

  /** next and prev link the frames of fifo in order and nothing else. */
  ghost predicate Linked(next: seq<int>, prev: seq<int>, fifo: seq<nat>) {
    && |next| == |prev| == NFRAMES + 1 && Distinct(fifo) && prev[HEAD] == NIL
    && (forall k :: -1 <= k < |fifo| ==> Joined(next, prev, fifo, k))
    && (forall i :: 0 <= i < NFRAMES && i !in fifo ==> next[i] == NIL && prev[i] == NIL)
  }

  lemma EmptyQueue(next: seq<int>, prev: seq<int>, ft: seq<Frame>, stamp: seq<nat>)
    requires |next| == |prev| == NFRAMES + 1 && forall i :: 0 <= i <= NFRAMES ==> next[i] == NIL && prev[i] == NIL
    requires |ft| == |stamp| == NFRAMES && forall i :: 0 <= i < NFRAMES ==> ft[i].kind != Paged
    ensures Linked(next, prev, []) && Queued(ft, []) && Aged([], stamp, 0)
  {
    assert Joined(next, prev, [], -1);
  }

  function Without(fifo: seq<nat>, k: nat): (rest: seq<nat>)
    requires k < |fifo|
    ensures |rest| == |fifo| - 1
  {
    fifo[..k] + fifo[k + 1..]
  }

  /** The links after frame i, between before and after, was taken out. */
  function NextWithout(next: seq<int>, before: int, i: int, after: int): seq<int>
    requires 0 <= before < |next| && 0 <= i < |next|
  {
    next[before := after][i := NIL]
  }

  function PrevWithout(prev: seq<int>, before: int, i: int, after: int): seq<int>
    requires after < |prev| && 0 <= i < |prev|
  {
    (if after < 0 then prev else prev[after := before])[i := NIL]
  }

  lemma ItemsApart(fifo: seq<nat>, j: int, k: int)
    requires Distinct(fifo) && -1 <= j < k <= |fifo|
    ensures Item(fifo, j) != Item(fifo, k)
    ensures 0 <= Item(fifo, j) <= HEAD && NIL <= Item(fifo, k) < HEAD
    ensures Item(fifo, k) == NIL <==> k == |fifo|
  {
  }

  lemma WithoutItem(fifo: seq<nat>, k: nat, j: int)
    requires k < |fifo| && -1 <= j < |fifo|
    ensures Item(Without(fifo, k), j) == Item(fifo, if j < k then j else j + 1)
  {
  }

  /** Unlinking the frame at place k: its neighbours are joined and its own
      links cleared. */
  lemma UnlinkAt(next: seq<int>, prev: seq<int>, fifo: seq<nat>, k: nat)
    requires Linked(next, prev, fifo) && k < |fifo|
    ensures var before, after := Item(fifo, k - 1), Item(fifo, k + 1);
            0 <= before <= HEAD && NIL <= after < HEAD &&
            Linked(NextWithout(next, before, fifo[k], after), PrevWithout(prev, before, fifo[k], after),
              Without(fifo, k))
  {
    var before, after := Item(fifo, k - 1), Item(fifo, k + 1);
    ItemsApart(fifo, k - 1, k);
    ItemsApart(fifo, k, k + 1);
    var next2, prev2 := NextWithout(next, before, fifo[k], after), PrevWithout(prev, before, fifo[k], after);
    var rest := Without(fifo, k);
    forall j | -1 <= j < |rest|
      ensures Joined(next2, prev2, rest, j)
    {
      UnlinkedJoin(next, prev, fifo, k, j);
    }
    UnlinkedRest(next, prev, fifo, k);
    assert Distinct(rest) by { hide Linked; assert Distinct(fifo); }
  }

  lemma UnlinkedJoin(next: seq<int>, prev: seq<int>, fifo: seq<nat>, k: nat, j: int)
    requires Linked(next, prev, fifo) && k < |fifo| && -1 <= j < |fifo| - 1
    ensures var before, after := Item(fifo, k - 1), Item(fifo, k + 1);
            0 <= before <= HEAD && NIL <= after < HEAD &&
            Joined(NextWithout(next, before, fifo[k], after), PrevWithout(prev, before, fifo[k], after),
              Without(fifo, k), j)
  {
    assert Item(fifo, k) == fifo[k] && Distinct(fifo);
    hide Linked, Distinct, Without, Item;
    WithoutItem(fifo, k, j);
    WithoutItem(fifo, k, j + 1);
    ItemsApart(fifo, k - 1, k);
    ItemsApart(fifo, k, k + 1);
    if j < k - 1 {
      JoinBefore(next, prev, fifo, k, j);
    } else if j == k - 1 {
      ItemsApart(fifo, k - 1, k + 1);
      assert Joined(next, prev, fifo, j);
    } else {
      JoinBehind(next, prev, fifo, k, j + 1);
    }
  }

  lemma JoinBefore(next: seq<int>, prev: seq<int>, fifo: seq<nat>, k: nat, j: int)
    requires Linked(next, prev, fifo) && k < |fifo| && -1 <= j < k - 1
    ensures Joined(next, prev, fifo, j) && Item(fifo, j + 1) != NIL
    ensures Item(fifo, j) != Item(fifo, k) && Item(fifo, j + 1) != Item(fifo, k)
    ensures Item(fifo, j) != Item(fifo, k - 1) && Item(fifo, j + 1) != Item(fifo, k + 1)
  {
    assert Joined(next, prev, fifo, j) && Distinct(fifo);
    hide Linked, Joined, Distinct, Item;
    ItemsApart(fifo, j, k);
    ItemsApart(fifo, j + 1, k);
    ItemsApart(fifo, j, k - 1);
    ItemsApart(fifo, j + 1, k + 1);
  }

  lemma JoinBehind(next: seq<int>, prev: seq<int>, fifo: seq<nat>, k: nat, j: int)
    requires Linked(next, prev, fifo) && k < j < |fifo|
    ensures Joined(next, prev, fifo, j)
    ensures Item(fifo, j) != Item(fifo, k) && Item(fifo, j + 1) != Item(fifo, k)
    ensures Item(fifo, j) != Item(fifo, k - 1) && Item(fifo, j + 1) != Item(fifo, k + 1)
  {
    assert Joined(next, prev, fifo, j) && Distinct(fifo);
    hide Linked, Joined, Distinct, Item;
    ItemsApart(fifo, k, j);
    ItemsApart(fifo, k, j + 1);
    ItemsApart(fifo, k - 1, j);
    ItemsApart(fifo, k + 1, j + 1);
  }

  lemma StillQueued(fifo: seq<nat>, k: nat, i: nat)
    requires k < |fifo|
    ensures i in fifo && i != fifo[k] ==> i in Without(fifo, k)
  {
    if i in fifo && i != fifo[k] {
      var was :| 0 <= was < |fifo| && fifo[was] == i;
      assert Without(fifo, k)[if was < k then was else was - 1] == i;
    }
  }

  lemma UnlinkedRest(next: seq<int>, prev: seq<int>, fifo: seq<nat>, k: nat)
    requires Linked(next, prev, fifo) && k < |fifo|
    ensures var before, after, rest := Item(fifo, k - 1), Item(fifo, k + 1), Without(fifo, k);
            0 <= before <= HEAD && NIL <= after < HEAD &&
            var next2, prev2 := NextWithout(next, before, fifo[k], after), PrevWithout(prev, before, fifo[k], after);
            prev2[HEAD] == NIL && forall i :: 0 <= i < NFRAMES && i !in rest ==> next2[i] == NIL && prev2[i] == NIL
  {
    var before, after, rest := Item(fifo, k - 1), Item(fifo, k + 1), Without(fifo, k);
    ItemsApart(fifo, k - 1, k);
    ItemsApart(fifo, k, k + 1);
    var next2, prev2 := NextWithout(next, before, fifo[k], after), PrevWithout(prev, before, fifo[k], after);
    forall i | 0 <= i < NFRAMES && i !in rest
      ensures next2[i] == NIL && prev2[i] == NIL
    {
      if k > 0 { assert before == rest[k - 1]; }
      if k + 1 < |fifo| { assert after == rest[k]; }
      StillQueued(fifo, k, i);
    }
  }

  /** Linking a frame behind the last one. */
  lemma LinkLast(next: seq<int>, prev: seq<int>, fifo: seq<nat>, i: nat)
    requires Linked(next, prev, fifo) && i < NFRAMES && i !in fifo
    ensures var last := Item(fifo, |fifo| - 1);
            0 <= last <= HEAD && Linked(next[last := i], prev[i := last], fifo + [i])
  {
    var last := Item(fifo, |fifo| - 1);
    assert Joined(next, prev, fifo, |fifo| - 1);
    var next2, prev2, more := next[last := i], prev[i := last], fifo + [i];
    assert forall k :: 0 <= k < |fifo| ==> fifo[k] in fifo;
    forall k | -1 <= k < |more|
      ensures Joined(next2, prev2, more, k)
    {
      if k < |fifo| { assert Joined(next, prev, fifo, k); }
    }
    forall j | 0 <= j < NFRAMES && j !in more
      ensures next2[j] == NIL && prev2[j] == NIL
    {
      assert more[|fifo|] == i;
      assert forall k :: 0 <= k < |fifo| ==> more[k] == fifo[k];
    }
  }

  /** Under FIFO replacement the queue holds exactly the page frames. */
  ghost predicate Queued(ft: seq<Frame>, fifo: seq<nat>) {
    |ft| == NFRAMES && forall i :: 0 <= i < NFRAMES ==> (ft[i].kind == Paged <==> i in fifo)
  }

  lemma QueueSame(ft: seq<Frame>, ft2: seq<Frame>, fifo: seq<nat>)
    requires |ft2| == NFRAMES == |ft|
    requires forall i :: 0 <= i < NFRAMES ==> (ft[i].kind == Paged <==> ft2[i].kind == Paged)
    ensures Queued(ft, fifo) <==> Queued(ft2, fifo)
  {
  }

  /** stamp says when each frame was last allocated; the queue is in that order. */
  ghost predicate Aged(fifo: seq<nat>, stamp: seq<nat>, clock: nat) {
    && |stamp| == NFRAMES && Distinct(fifo)
    && (forall k :: 0 <= k < |fifo| ==> stamp[fifo[k]] < clock)
    && (forall j, k :: 0 <= j < k < |fifo| ==> stamp[fifo[j]] < stamp[fifo[k]])
  }

  /** The frame at the front of the queue was allocated before every other page
      frame. */
  lemma FrontIsOldest(ft: seq<Frame>, fifo: seq<nat>, stamp: seq<nat>, clock: nat, i: nat)
    requires Queued(ft, fifo) && Aged(fifo, stamp, clock) && |fifo| > 0
    requires i < NFRAMES && ft[i].kind == Paged && i != fifo[0]
    ensures ft[fifo[0]].kind == Paged && stamp[fifo[0]] < stamp[i]
  {
    assert fifo[0] in fifo;
    var k :| 0 <= k < |fifo| && fifo[k] == i;
  }

  lemma AgedWithout(fifo: seq<nat>, stamp: seq<nat>, clock: nat, k: nat)
    requires Aged(fifo, stamp, clock) && k < |fifo|
    ensures Aged(Without(fifo, k), stamp, clock)
  {
    var rest := Without(fifo, k);
    forall j | 0 <= j < |rest|
      ensures rest[j] == fifo[if j < k then j else j + 1]
    {
    }
  }

  lemma AgedWith(fifo: seq<nat>, stamp: seq<nat>, clock: nat, i: nat)
    requires Aged(fifo, stamp, clock) && i < NFRAMES && i !in fifo
    ensures Aged(fifo + [i], stamp[i := clock], clock + 1)
  {
    assert forall k :: 0 <= k < |fifo| ==> fifo[k] in fifo;
  }

  lemma QueuedWithout(ft: seq<Frame>, fifo: seq<nat>, k: nat, r: Frame)
    requires Queued(ft, fifo) && Distinct(fifo) && k < |fifo| && r.kind != Paged
    ensures Queued(ft[fifo[k] := r], Without(fifo, k))
  {
    var rest := Without(fifo, k);
    forall i | 0 <= i < NFRAMES
      ensures ft[fifo[k] := r][i].kind == Paged <==> i in rest
    {
      StillQueued(fifo, k, i);
      if i in rest {
        var j :| 0 <= j < |rest| && rest[j] == i;
        assert fifo[if j < k then j else j + 1] == i;
      }
    }
  }

  lemma QueuedWith(ft: seq<Frame>, fifo: seq<nat>, i: nat, r: Frame)
    requires Queued(ft, fifo) && i < NFRAMES && r.kind == Paged
    ensures Queued(ft[i := r], fifo + [i])
  {
    assert forall j :: j in fifo + [i] <==> j in fifo || j == i;
  }
}
