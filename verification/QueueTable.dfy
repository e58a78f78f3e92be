/** queuetab: every process list of the system in one array, doubly linked by
    index between a head and a tail entry. */
module QueueTable {
  const NPROC := 100
  const NSEM := 100
  const NQENT := NPROC + 4 + NSEM + NSEM
  const EMPTY: int := -1
  const MAXKEY := 0x7FFFFFFF
  const MINKEY := -0x80000000
  const SYSERR: int := -1
  const OK: int := 1

  /** Head entry of the n-th list; its tail is the next entry. */
  function QidOf(n: int): int {
    NPROC + 2 * n
  }

  /** Entry k of the n-th list, its head before the first and its tail after the
      last. */
  function Item(list: seq<nat>, n: int, k: int): int {
    if k < 0 then QidOf(n) else if k < |list| then list[k] else QidOf(n) + 1
  }

  /** Two neighbours of a list point at each other. */
  predicate Joined(next: seq<int>, prev: seq<int>, list: seq<nat>, n: int, k: int) {
    && |next| == |prev| == NQENT && 0 <= Item(list, n, k) < NQENT && 0 <= Item(list, n, k + 1) < NQENT
    && next[Item(list, n, k)] == Item(list, n, k + 1) && prev[Item(list, n, k + 1)] == Item(list, n, k)
  }

  ghost predicate Linked(next: seq<int>, prev: seq<int>, list: seq<nat>, n: int) {
    && |next| == |prev| == NQENT
    && (forall k :: -1 <= k < |list| ==> Joined(next, prev, list, n, k))
    && 0 <= QidOf(n) && QidOf(n) + 1 < NQENT && prev[QidOf(n)] == EMPTY && next[QidOf(n) + 1] == EMPTY
  }

  /** The members of the n-th list are processes that are on it, each once. */
  ghost predicate Owned(where: seq<int>, list: seq<nat>, n: int) {
    && |where| == NPROC
    && (forall k :: 0 <= k < |list| ==> list[k] < NPROC && where[list[k]] == n)
    && (forall j, k :: 0 <= j < k < |list| ==> list[j] != list[k])
  }

  /** Every list is well formed, no process is on two lists or twice on one, and
      where says on which list each process is. */
  ghost predicate Queues(next: seq<int>, prev: seq<int>, where: seq<int>, lists: seq<seq<nat>>) {
    && |next| == |prev| == NQENT && |where| == NPROC && 2 * |lists| <= NQENT - NPROC
    && (forall n :: 0 <= n < |lists| ==> Linked(next, prev, lists[n], n) && Owned(where, lists[n], n))
    && (forall p :: 0 <= p < NPROC ==> -1 <= where[p] < |lists| && (where[p] >= 0 ==> p in lists[where[p]]))
  }

  /** Head and tail keys stop the scans. */
  ghost predicate Sentinels(key: seq<int>, count: nat) {
    |key| == NQENT && 2 * count <= NQENT - NPROC &&
    forall n :: 0 <= n < count ==> key[QidOf(n)] == MAXKEY && key[QidOf(n) + 1] == MINKEY
  }

  function InsertAt(list: seq<nat>, k: nat, p: nat): (r: seq<nat>)
    requires k <= |list|
    ensures |r| == |list| + 1
  {
    list[..k] + [p] + list[k..]
  }

  function RemoveAt(list: seq<nat>, k: nat): (r: seq<nat>)
    requires k < |list|
    ensures |r| == |list| - 1
  {
    list[..k] + list[k + 1..]
  }

  // -------------------------------------------------------------- linking

  /** The links after p was put between two neighbours. */
  function NextWith(next: seq<int>, before: int, p: nat, after: int): seq<int>
    requires 0 <= before < |next| && p < |next|
  {
    next[p := after][before := p]
  }

  function PrevWith(prev: seq<int>, before: int, p: nat, after: int): seq<int>
    requires 0 <= after < |prev| && p < |prev|
  {
    prev[p := before][after := p]
  }

  lemma ItemRange(list: seq<nat>, n: int, k: int, where: seq<int>)
    requires Owned(where, list, n) && 0 <= n && QidOf(n) + 1 < NQENT && -1 <= k <= |list|
    ensures 0 <= Item(list, n, k) < NQENT
    ensures Item(list, n, k) < NPROC <==> 0 <= k < |list|
    ensures 0 <= k < |list| ==> where[Item(list, n, k)] == n
  {
  }

  lemma ItemsApart(list: seq<nat>, n: int, j: int, k: int, where: seq<int>)
    requires Owned(where, list, n) && 0 <= n && -1 <= j < k <= |list|
    ensures Item(list, n, j) != Item(list, n, k)
  {
  }

  /** Entry i of the table is a member, the head or the tail of list n. */
  predicate Belongs(where: seq<int>, i: int, n: int) {
    0 <= i && |where| == NPROC && if i < NPROC then where[i] == n else i == QidOf(n) || i == QidOf(n) + 1
  }

  /** A list none of whose entries changes stays linked. */
  lemma LinkedApart(next: seq<int>, prev: seq<int>, next2: seq<int>, prev2: seq<int>, list: seq<nat>, n: int,
      where: seq<int>)
    requires Linked(next, prev, list, n) && Owned(where, list, n) && 0 <= n && |next2| == |prev2| == NQENT
    requires forall i :: 0 <= i < NQENT && Belongs(where, i, n) ==> next2[i] == next[i] && prev2[i] == prev[i]
    ensures Linked(next2, prev2, list, n)
  {
    assert Belongs(where, QidOf(n), n) && Belongs(where, QidOf(n) + 1, n);
    forall k | -1 <= k < |list|
      ensures Joined(next2, prev2, list, n, k)
    {
      assert Joined(next, prev, list, n, k);
      assert Belongs(where, Item(list, n, k), n) && Belongs(where, Item(list, n, k + 1), n);
    }
  }

  lemma InsertItem(list: seq<nat>, n: int, k: nat, p: nat, j: int)
    requires k <= |list| && -1 <= j <= |list| + 1
    ensures Item(InsertAt(list, k, p), n, j) == if j < k then Item(list, n, j) else if j == k then p
              else Item(list, n, j - 1)
  {
  }

  /** Putting a process that is on no list into list n at place k. */
  lemma InsertLinked(next: seq<int>, prev: seq<int>, where: seq<int>, list: seq<nat>, n: int, k: nat, p: nat)
    requires Linked(next, prev, list, n) && Owned(where, list, n) && 0 <= n && k <= |list| && p < NPROC && where[p] != n
    ensures var before, after := Item(list, n, k - 1), Item(list, n, k);
            0 <= before < NQENT && 0 <= after < NQENT &&
            Linked(NextWith(next, before, p, after), PrevWith(prev, before, p, after), InsertAt(list, k, p), n)
  {
    var before, after := Item(list, n, k - 1), Item(list, n, k);
    assert Joined(next, prev, list, n, k - 1);
    var next2, prev2, more := NextWith(next, before, p, after), PrevWith(prev, before, p, after), InsertAt(list, k, p);
    forall j | -1 <= j < |more|
      ensures Joined(next2, prev2, more, n, j)
    {
      InsertJoined(next, prev, where, list, n, k, p, j);
    }
    ItemRange(list, n, k - 1, where);
    ItemRange(list, n, k, where);
  }

  lemma InsertJoined(next: seq<int>, prev: seq<int>, where: seq<int>, list: seq<nat>, n: int, k: nat, p: nat, j: int)
    requires Linked(next, prev, list, n) && Owned(where, list, n) && 0 <= n && k <= |list| && p < NPROC && where[p] != n
    requires -1 <= j <= |list|
    ensures var before, after := Item(list, n, k - 1), Item(list, n, k);
            0 <= before < NQENT && 0 <= after < NQENT &&
            Joined(NextWith(next, before, p, after), PrevWith(prev, before, p, after), InsertAt(list, k, p), n, j)
  {
    assert 0 <= QidOf(n) && QidOf(n) + 1 < NQENT;
    assert Joined(next, prev, list, n, k - 1);
    hide Linked, Owned, InsertAt, Item, QidOf, NextWith, PrevWith;
    InsertItem(list, n, k, p, j);
    InsertItem(list, n, k, p, j + 1);
    ItemRange(list, n, k - 1, where);
    ItemRange(list, n, k, where);
    NearLinks(next, prev, Item(list, n, k - 1), p, Item(list, n, k));
    if j < k - 1 {
      JoinFar(next, prev, where, list, n, k, p, j);
      FarLinks(next, prev, Item(list, n, k - 1), p, Item(list, n, k), Item(list, n, j), Item(list, n, j + 1));
    } else if j > k {
      JoinFar(next, prev, where, list, n, k, p, j - 1);
      FarLinks(next, prev, Item(list, n, k - 1), p, Item(list, n, k), Item(list, n, j - 1), Item(list, n, j));
    }
  }

  lemma NearLinks(next: seq<int>, prev: seq<int>, before: int, p: nat, after: int)
    requires 0 <= before < |next| && 0 <= after < |prev| == |next| && p < |next| && before != p && after != p
    ensures NextWith(next, before, p, after)[before] == p && NextWith(next, before, p, after)[p] == after
    ensures PrevWith(prev, before, p, after)[after] == p && PrevWith(prev, before, p, after)[p] == before
    ensures |NextWith(next, before, p, after)| == |PrevWith(prev, before, p, after)| == |next|
  {
  }

  lemma FarLinks(next: seq<int>, prev: seq<int>, before: int, p: nat, after: int, a: int, b: int)
    requires 0 <= before < |next| && 0 <= after < |prev| == |next| && p < |next| && 0 <= a < |next| && 0 <= b < |next|
    requires a != before && a != p && b != after && b != p
    ensures NextWith(next, before, p, after)[a] == next[a] && PrevWith(prev, before, p, after)[b] == prev[b]
  {
  }

  /** Neighbours other than the two p goes between. */
  lemma JoinFar(next: seq<int>, prev: seq<int>, where: seq<int>, list: seq<nat>, n: int, k: nat, p: nat, j: int)
    requires Linked(next, prev, list, n) && Owned(where, list, n) && 0 <= n && k <= |list| && p < NPROC && where[p] != n
    requires -1 <= j < |list| && j != k - 1
    ensures Joined(next, prev, list, n, j)
    ensures Item(list, n, j) != p && Item(list, n, j + 1) != p
    ensures Item(list, n, j) != Item(list, n, k - 1) && Item(list, n, j + 1) != Item(list, n, k)
  {
    assert 0 <= QidOf(n) && QidOf(n) + 1 < NQENT && Joined(next, prev, list, n, j);
    hide Linked, Owned, Item, QidOf, Joined;
    ItemRange(list, n, j, where);
    ItemRange(list, n, j + 1, where);
    if j < k - 1 {
      ItemsApart(list, n, j, k - 1, where);
      ItemsApart(list, n, j + 1, k, where);
    } else {
      ItemsApart(list, n, k - 1, j, where);
      ItemsApart(list, n, k, j + 1, where);
    }
  }

  /** The links after the process between two neighbours was taken out; its own
      links no longer matter. */
  function NextOut(next: seq<int>, before: int, p: nat, after: int, own: int): seq<int>
    requires 0 <= before < |next| && p < |next|
  {
    next[before := after][p := own]
  }

  function PrevOut(prev: seq<int>, before: int, p: nat, after: int, own: int): seq<int>
    requires 0 <= after < |prev| && p < |prev|
  {
    prev[after := before][p := own]
  }

  lemma RemoveItem(list: seq<nat>, n: int, k: nat, j: int)
    requires k < |list| && -1 <= j <= |list| - 1
    ensures Item(RemoveAt(list, k), n, j) == if j < k then Item(list, n, j) else Item(list, n, j + 1)
  {
  }

  lemma OutLinks(next: seq<int>, prev: seq<int>, before: int, p: nat, after: int, x: int, y: int, a: int, b: int)
    requires 0 <= before < |next| && 0 <= after < |prev| == |next| && p < |next| && 0 <= a < |next| && 0 <= b < |next|
    requires before != p && after != p
    ensures NextOut(next, before, p, after, x)[before] == after && PrevOut(prev, before, p, after, y)[after] == before
    ensures a != before && a != p ==> NextOut(next, before, p, after, x)[a] == next[a]
    ensures b != after && b != p ==> PrevOut(prev, before, p, after, y)[b] == prev[b]
    ensures |NextOut(next, before, p, after, x)| == |PrevOut(prev, before, p, after, y)| == |next|
  {
  }

  /** Taking the process at place k out of list n. */
  lemma RemoveLinked(next: seq<int>, prev: seq<int>, where: seq<int>, list: seq<nat>, n: int, k: nat, x: int, y: int)
    requires Linked(next, prev, list, n) && Owned(where, list, n) && 0 <= n && k < |list|
    ensures var before, after := Item(list, n, k - 1), Item(list, n, k + 1);
            0 <= before < NQENT && 0 <= after < NQENT && next[list[k]] == after && prev[list[k]] == before &&
            Linked(NextOut(next, before, list[k], after, x), PrevOut(prev, before, list[k], after, y),
              RemoveAt(list, k), n)
  {
    var before, after := Item(list, n, k - 1), Item(list, n, k + 1);
    assert Joined(next, prev, list, n, k - 1) && Joined(next, prev, list, n, k);
    var next2, prev2, less := NextOut(next, before, list[k], after, x), PrevOut(prev, before, list[k], after, y),
      RemoveAt(list, k);
    forall j | -1 <= j < |less|
      ensures Joined(next2, prev2, less, n, j)
    {
      RemoveJoined(next, prev, where, list, n, k, x, y, j);
    }
    ItemRange(list, n, k - 1, where);
    ItemRange(list, n, k + 1, where);
  }

  lemma RemoveJoined(next: seq<int>, prev: seq<int>, where: seq<int>, list: seq<nat>, n: int, k: nat, x: int, y: int,
      j: int)
    requires Linked(next, prev, list, n) && Owned(where, list, n) && 0 <= n && k < |list| && -1 <= j < |list| - 1
    ensures var before, after := Item(list, n, k - 1), Item(list, n, k + 1);
            0 <= before < NQENT && 0 <= after < NQENT &&
            Joined(NextOut(next, before, list[k], after, x), PrevOut(prev, before, list[k], after, y),
              RemoveAt(list, k), n, j)
  {
    assert 0 <= QidOf(n) && QidOf(n) + 1 < NQENT && Item(list, n, k) == list[k] && list[k] < NPROC;
    assert Joined(next, prev, list, n, k - 1) && Joined(next, prev, list, n, k);
    var before, after := Item(list, n, k - 1), Item(list, n, k + 1);
    hide Linked, Owned, RemoveAt, Item, QidOf, NextOut, PrevOut;
    RemoveItem(list, n, k, j);
    RemoveItem(list, n, k, j + 1);
    ItemRange(list, n, k - 1, where);
    ItemRange(list, n, k + 1, where);
    ItemsApart(list, n, k - 1, k, where);
    ItemsApart(list, n, k, k + 1, where);
    if j == k - 1 {
      OutLinks(next, prev, before, list[k], after, x, y, before, after);
    } else {
      var was := if j < k then j else j + 1;
      OutFar(next, prev, where, list, n, k, was);
      OutLinks(next, prev, before, list[k], after, x, y, Item(list, n, was), Item(list, n, was + 1));
    }
  }

  /** Neighbours other than those of the process taken out. */
  lemma OutFar(next: seq<int>, prev: seq<int>, where: seq<int>, list: seq<nat>, n: int, k: nat, j: int)
    requires Linked(next, prev, list, n) && Owned(where, list, n) && 0 <= n && k < |list| && -1 <= j < |list|
    requires j != k - 1 && j != k
    ensures Joined(next, prev, list, n, j) && 0 <= Item(list, n, j) < NQENT && 0 <= Item(list, n, j + 1) < NQENT
    ensures Item(list, n, j) != Item(list, n, k) && Item(list, n, j) != Item(list, n, k - 1)
    ensures Item(list, n, j + 1) != Item(list, n, k) && Item(list, n, j + 1) != Item(list, n, k + 1)
  {
    assert 0 <= QidOf(n) && QidOf(n) + 1 < NQENT && Joined(next, prev, list, n, j);
    hide Linked, Owned, Item, QidOf;
    if j < k - 1 {
      ItemsApart(list, n, j, k, where);
      ItemsApart(list, n, j, k - 1, where);
      ItemsApart(list, n, j + 1, k, where);
      ItemsApart(list, n, j + 1, k + 1, where);
    } else {
      ItemsApart(list, n, k, j, where);
      ItemsApart(list, n, k - 1, j, where);
      ItemsApart(list, n, k, j + 1, where);
      ItemsApart(list, n, k + 1, j + 1, where);
    }
  }

  // ------------------------------------------- all lists of the table

  lemma OwnedInsert(where: seq<int>, list: seq<nat>, n: int, k: nat, p: nat)
    requires Owned(where, list, n) && k <= |list| && p < NPROC && where[p] != n
    ensures Owned(where[p := n], InsertAt(list, k, p), n)
  {
    var more := InsertAt(list, k, p);
    forall j | 0 <= j < |more|
      ensures more[j] == if j < k then list[j] else if j == k then p else list[j - 1]
    {
    }
  }

  lemma OwnedRemove(where: seq<int>, list: seq<nat>, n: int, k: nat)
    requires Owned(where, list, n) && k < |list| && 0 <= n
    ensures Owned(where[list[k] := -1], RemoveAt(list, k), n)
  {
    var less := RemoveAt(list, k);
    forall j | 0 <= j < |less|
      ensures less[j] == list[if j < k then j else j + 1]
    {
    }
  }

  /** Entries of different lists are different. */
  lemma ListsApart(where: seq<int>, i: int, n: int, m: int)
    requires n != m && 0 <= n && 0 <= m && Belongs(where, i, n)
    ensures !Belongs(where, i, m)
  {
  }

  lemma QueuesInsert(next: seq<int>, prev: seq<int>, where: seq<int>, lists: seq<seq<nat>>, n: nat, k: nat, p: nat)
    requires Queues(next, prev, where, lists) && n < |lists| && k <= |lists[n]| && p < NPROC && where[p] == -1
    ensures var before, after := Item(lists[n], n, k - 1), Item(lists[n], n, k);
            0 <= before < NQENT && 0 <= after < NQENT &&
            Queues(NextWith(next, before, p, after), PrevWith(prev, before, p, after), where[p := n],
              lists[n := InsertAt(lists[n], k, p)])
  {
    var before, after := Item(lists[n], n, k - 1), Item(lists[n], n, k);
    assert Linked(next, prev, lists[n], n) && Owned(where, lists[n], n);
    InsertLinked(next, prev, where, lists[n], n, k, p);
    OwnedInsert(where, lists[n], n, k, p);
    var next2, prev2, where2, lists2 := NextWith(next, before, p, after), PrevWith(prev, before, p, after),
      where[p := n], lists[n := InsertAt(lists[n], k, p)];
    assert Belongs(where, before, n) && Belongs(where, after, n);
    hide Linked, InsertAt;
    forall m | 0 <= m < |lists| && m != n
      ensures Linked(next2, prev2, lists2[m], m) && Owned(where2, lists2[m], m)
    {
      assert Linked(next, prev, lists[m], m) && Owned(where, lists[m], m);
      ListsApart(where, before, n, m);
      ListsApart(where, after, n, m);
      LinkedApart(next, prev, next2, prev2, lists[m], m, where);
    }
    forall q | 0 <= q < NPROC && where2[q] >= 0
      ensures where2[q] < |lists2| && q in lists2[where2[q]]
    {
      InsertMember(lists[n], k, p, q);
    }
  }

  lemma InsertMember(list: seq<nat>, k: nat, p: nat, q: nat)
    requires k <= |list|
    ensures q in InsertAt(list, k, p) <==> q == p || q in list
  {
    var more := InsertAt(list, k, p);
    assert more[k] == p;
    if q in list {
      var j :| 0 <= j < |list| && list[j] == q;
      assert more[if j < k then j else j + 1] == q;
    }
  }

  lemma RemoveMember(where: seq<int>, list: seq<nat>, n: int, k: nat, q: nat)
    requires Owned(where, list, n) && k < |list|
    ensures q in RemoveAt(list, k) <==> q != list[k] && q in list
  {
    var less := RemoveAt(list, k);
    assert forall j :: 0 <= j < |less| ==> less[j] == list[if j < k then j else j + 1];
    if q != list[k] && q in list {
      var j :| 0 <= j < |list| && list[j] == q;
      assert less[if j < k then j else j - 1] == q;
    }
  }

  lemma QueuesRemove(next: seq<int>, prev: seq<int>, where: seq<int>, lists: seq<seq<nat>>, n: nat, k: nat, x: int,
      y: int)
    requires Queues(next, prev, where, lists) && n < |lists| && k < |lists[n]|
    ensures var p := lists[n][k];
            var before, after := Item(lists[n], n, k - 1), Item(lists[n], n, k + 1);
            p < NPROC && 0 <= before < NQENT && 0 <= after < NQENT && next[p] == after && prev[p] == before &&
            Queues(NextOut(next, before, p, after, x), PrevOut(prev, before, p, after, y), where[p := -1],
              lists[n := RemoveAt(lists[n], k)])
  {
    var p := lists[n][k];
    var before, after := Item(lists[n], n, k - 1), Item(lists[n], n, k + 1);
    assert Linked(next, prev, lists[n], n) && Owned(where, lists[n], n);
    RemoveLinked(next, prev, where, lists[n], n, k, x, y);
    OwnedRemove(where, lists[n], n, k);
    var next2, prev2, where2, lists2 := NextOut(next, before, p, after, x), PrevOut(prev, before, p, after, y),
      where[p := -1], lists[n := RemoveAt(lists[n], k)];
    assert Belongs(where, before, n) && Belongs(where, after, n);
    hide Linked, RemoveAt;
    forall m | 0 <= m < |lists| && m != n
      ensures Linked(next2, prev2, lists2[m], m) && Owned(where2, lists2[m], m)
    {
      assert Linked(next, prev, lists[m], m) && Owned(where, lists[m], m);
      ListsApart(where, before, n, m);
      ListsApart(where, after, n, m);
      LinkedApart(next, prev, next2, prev2, lists[m], m, where);
    }
    forall q | 0 <= q < NPROC && where2[q] >= 0
      ensures where2[q] < |lists2| && q in lists2[where2[q]]
    {
      RemoveMember(where, lists[n], n, k, q);
    }
  }
}
