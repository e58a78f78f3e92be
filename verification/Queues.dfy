/** The operations on queuetab. Each changes one list as its name says and leaves
    every other list and the table's order alone. */
module Queues {
  import opened QueueTable

  function IndexOf(list: seq<nat>, p: nat): (k: nat)
    requires p in list
    ensures k < |list| && list[k] == p
  {
    if list[0] == p then 0 else 1 + IndexOf(list[1..], p)
  }

  /** Where insert puts a key into a list in descending order: behind every key
      that is not smaller. */
  function KeyPlace(list: seq<nat>, key: seq<int>, x: int): (k: nat)
    requires forall j :: 0 <= j < |list| ==> list[j] < |key|
    ensures k <= |list|
  {
    if |list| == 0 || key[list[0]] < x then 0 else 1 + KeyPlace(list[1..], key, x)
  }

  lemma {:induction false} KeyPlaceIs(list: seq<nat>, key: seq<int>, x: int, k: nat)
    requires forall j :: 0 <= j < |list| ==> list[j] < |key|
    requires k <= |list| && (k < |list| ==> key[list[k]] < x) && forall j :: 0 <= j < k ==> key[list[j]] >= x
    ensures KeyPlace(list, key, x) == k
  {
    if k > 0 {
      KeyPlaceIs(list[1..], key, x, k - 1);
    }
  }

  lemma {:induction false} KeyPlaceOrders(list: seq<nat>, key: seq<int>, x: int)
    requires forall j :: 0 <= j < |list| ==> list[j] < |key|
    ensures var k := KeyPlace(list, key, x);
            (k < |list| ==> key[list[k]] < x) && forall j :: 0 <= j < k ==> key[list[j]] >= x
  {
    if |list| > 0 && key[list[0]] >= x {
      KeyPlaceOrders(list[1..], key, x);
      forall j | 0 <= j < KeyPlace(list, key, x)
        ensures key[list[j]] >= x
      {
        if j > 0 { assert list[1..][j - 1] == list[j]; }
      }
    }
  }

  /** Where insertd puts a delay into a delta list, and what is left of the delay
      there. */
  function DeltaPlace(list: seq<nat>, key: seq<int>, d: int): (k: nat)
    requires forall j :: 0 <= j < |list| ==> list[j] < |key|
    ensures k <= |list|
  {
    if |list| == 0 || key[list[0]] > d then 0 else 1 + DeltaPlace(list[1..], key, d - key[list[0]])
  }

  /** Sum of the deltas of the first k members. */
  function Prefix(list: seq<nat>, key: seq<int>, k: nat): int
    requires k <= |list| && forall j :: 0 <= j < |list| ==> list[j] < |key|
  {
    if k == 0 then 0 else Prefix(list, key, k - 1) + key[list[k - 1]]
  }

  lemma {:induction false} PrefixTail(list: seq<nat>, key: seq<int>, k: nat)
    requires 1 <= k <= |list| && forall j :: 0 <= j < |list| ==> list[j] < |key|
    ensures Prefix(list, key, k) == key[list[0]] + Prefix(list[1..], key, k - 1)
  {
    if k > 1 {
      PrefixTail(list, key, k - 1);
    }
  }

  lemma {:induction false} DeltaPlaceIs(list: seq<nat>, key: seq<int>, d: int, k: nat)
    requires forall j :: 0 <= j < |list| ==> list[j] < |key|
    requires k <= |list| && (k < |list| ==> key[list[k]] > d - Prefix(list, key, k))
    requires forall j :: 0 <= j < k ==> key[list[j]] <= d - Prefix(list, key, j)
    ensures DeltaPlace(list, key, d) == k
  {
    if k > 0 {
      assert Prefix(list, key, 0) == 0;
      forall j | 1 <= j <= k
        ensures Prefix(list, key, j) == key[list[0]] + Prefix(list[1..], key, j - 1)
      {
        PrefixTail(list, key, j);
      }
      forall j | 0 <= j < k - 1
        ensures key[list[1..][j]] <= (d - key[list[0]]) - Prefix(list[1..], key, j)
      {
        assert key[list[j + 1]] <= d - Prefix(list, key, j + 1);
      }
      DeltaPlaceIs(list[1..], key, d - key[list[0]], k - 1);
    }
  }

  /** A 32-bit key. */
  function Int32(x: int): int {
    (x + 0x8000_0000) % 0x1_0000_0000 - 0x8000_0000
  }

  predicate IsInt32(x: int) {
    MINKEY <= x <= MAXKEY
  }

  lemma Int32Same(x: int)
    ensures Int32(x) == x <==> IsInt32(x)
    ensures IsInt32(Int32(x))
  {
  }

  /** The keys after insertd: the process holds what is left of its delay, and the
      one behind it that much less. */
  function DeltaKeys(list: seq<nat>, key: seq<int>, p: nat, d: int): (r: seq<int>)
    requires p < |key| && forall j :: 0 <= j < |list| ==> list[j] < |key|
    ensures |r| == |key|
  {
    if |list| == 0 then key[p := d]
    else if key[list[0]] > d then key[p := d][list[0] := Int32(key[list[0]] - d)]
    else DeltaKeys(list[1..], key, p, d - key[list[0]])
  }

  lemma {:induction false} DeltaKeysIs(list: seq<nat>, key: seq<int>, p: nat, d: int)
    requires p < |key| && forall j :: 0 <= j < |list| ==> list[j] < |key|
    ensures var k := DeltaPlace(list, key, d);
            var left := d - Prefix(list, key, k);
            DeltaKeys(list, key, p, d) == if k < |list| then key[p := left][list[k] := Int32(key[list[k]] - left)]
              else key[p := left]
  {
    if |list| > 0 && key[list[0]] <= d {
      DeltaKeysIs(list[1..], key, p, d - key[list[0]]);
      PrefixTail(list, key, DeltaPlace(list, key, d));
    }
  }

  /** isbadqid. */
  predicate BadQid(q: int) {
    q < 0 || q >= NQENT - 1
  }

  /** isbadpid; free tells the state of the process. */
  predicate NoProcess(p: int, free: bool) {
    p < 0 || p >= NPROC || free
  }

  /** Outside: the entries after the end of the table were taken for a list. */
  datatype NewList = Made(q: int) | Refused | Outside

  /** The test of newqueue for a full table is q > NQENT. It is right but for one
      call: it admits every list that has room, and one more, which begins exactly
      at the end of the table. */
  lemma FullTest(n: nat)
    ensures var q := QidOf(n);
            && (0 <= q && q + 1 < NQENT <==> n < 2 + NSEM)
            && (!(q > NQENT) && !(q + 1 < NQENT) <==> q == NQENT) && (q == NQENT <==> n == 2 + NSEM)
  {
  }

  class QueueTab {
    const qkey: array<int>
    const qnext: array<int>
    const qprev: array<int>
    /** The next table entry newqueue uses. */
    var nextqid: int

    ghost var lists: seq<seq<nat>>
    ghost var where: seq<int>

    ghost predicate Valid()
      reads this, qkey, qnext, qprev
    {
      && qkey.Length == qnext.Length == qprev.Length == NQENT && qkey != qnext && qkey != qprev && qnext != qprev
      && Queues(qnext[..], qprev[..], where, lists) && Sentinels(qkey[..], |lists|)
      && (nextqid == QidOf(|lists|) || (|lists| == 2 + NSEM && nextqid == QidOf(|lists|) + 2))
    }

    constructor ()
      ensures Valid() && lists == [] && where == seq(NPROC, _ => -1) && fresh(qkey) && fresh(qnext) && fresh(qprev)
    {
      qkey := new int[NQENT](_ => 0);
      qnext := new int[NQENT](_ => EMPTY);
      qprev := new int[NQENT](_ => EMPTY);
      nextqid := NPROC;
      lists, where := [], seq(NPROC, _ => -1);
    }

    /** The members of a list are processes. */
    lemma Members(n: nat)
      requires Valid() && n < |lists|
      ensures forall j :: 0 <= j < |lists[n]| ==> lists[n][j] < NPROC && where[lists[n][j]] == n
      ensures |where| == NPROC && NPROC <= QidOf(n) && QidOf(n) + 1 < NQENT
      ensures qkey.Length == qnext.Length == qprev.Length == NQENT && qkey != qnext && qkey != qprev
    {
      assert Owned(where, lists[n], n);
    }

    lemma Neighbours(n: nat, k: int)
      requires Valid() && n < |lists| && -1 <= k < |lists[n]|
      ensures 0 <= Item(lists[n], n, k) < NQENT && 0 <= Item(lists[n], n, k + 1) < NQENT
      ensures qnext[Item(lists[n], n, k)] == Item(lists[n], n, k + 1)
      ensures qprev[Item(lists[n], n, k + 1)] == Item(lists[n], n, k)
    {
      assert Linked(qnext[..], qprev[..], lists[n], n) && Joined(qnext[..], qprev[..], lists[n], n, k);
    }

    method Firstid(q: int, ghost n: nat) returns (id: int)
      requires Valid() && n < |lists| && q == QidOf(n)
      ensures id == Item(lists[n], n, 0) && (id < NPROC <==> lists[n] != [])
      ensures 0 <= id < NQENT && (lists[n] == [] ==> id == QidOf(n) + 1)
    {
      Members(n);
      Neighbours(n, -1);
      id := qnext[q];
    }

    /** Link p between two neighbours. */
    method Link(p: nat, ghost n: nat, ghost k: nat, before: int, after: int)
      requires Valid() && n < |lists| && k <= |lists[n]| && p < NPROC && where[p] == -1
      requires before == Item(lists[n], n, k - 1) && after == Item(lists[n], n, k)
      modifies qnext, qprev, `lists, `where
      ensures Valid() && lists == old(lists)[n := InsertAt(old(lists)[n], k, p)] && where == old(where)[p := n]
    {
      Members(n);
      hide Queues, Sentinels, InsertAt;
      QueuesInsert(qnext[..], qprev[..], where, lists, n, k, p);
      qnext[p] := after;
      qprev[p] := before;
      qnext[before] := p;
      qprev[after] := p;
      where, lists := where[p := n], lists[n := InsertAt(lists[n], k, p)];
    }

    ghost predicate NotQueued(p: int)
      reads `where
    {
      0 <= p < |where| && where[p] == -1
    }

    /** Insert a process at the tail of a list. */
    method Enqueue(p: int, q: int, free: bool, ghost n: nat) returns (r: int)
      requires Valid() && (!BadQid(q) && !NoProcess(p, free) ==> n < |lists| && q == QidOf(n) && NotQueued(p))
      modifies qnext, qprev, `lists, `where
      ensures Valid() && r == if BadQid(q) || NoProcess(p, free) then SYSERR else p
      ensures r == SYSERR ==> lists == old(lists) && where == old(where)
      ensures r != SYSERR ==> 0 <= p < |old(where)| && n < |old(lists)|
      ensures r != SYSERR ==> lists == old(lists)[n := old(lists)[n] + [p]] && where == old(where)[p := n]
    {
      hide Queues, Sentinels;
      if BadQid(q) || NoProcess(p, free) {
        return SYSERR;
      }
      Members(n);
      Neighbours(n, |lists[n]| - 1);
      var tail := q + 1;
      var prev := qprev[tail];
      assert InsertAt(lists[n], |lists[n]|, p) == lists[n] + [p];
      Link(p, n, |lists[n]|, prev, tail);
      r := p;
    }

    /** Remove a process from wherever it is. */
    method Getitem(p: nat) returns (r: int)
      requires Valid() && p < NPROC && where[p] >= 0
      modifies qnext, qprev, `lists, `where
      ensures Valid() && r == p && where == old(where)[p := -1]
      ensures 0 <= old(where[p]) < |old(lists)| && p in old(lists)[old(where[p])]
      ensures var n := old(where[p]); lists == old(lists)[n := RemoveAt(old(lists)[n], IndexOf(old(lists)[n], p))]
    {
      ListOf(p);
      hide Queues, Sentinels, RemoveAt;
      ghost var n := where[p];
      ghost var k := IndexOf(lists[n], p);
      QueuesRemove(qnext[..], qprev[..], where, lists, n, k, qnext[p], qprev[p]);
      var next := qnext[p];
      var prev := qprev[p];
      ghost var next2, prev2 := NextOut(qnext[..], prev, p, next, qnext[p]),
        PrevOut(qprev[..], prev, p, next, qprev[p]);
      NeighboursApart(p, n, k);
      qnext[prev] := next;
      qprev[next] := prev;
      assert qnext[..] == next2 && qprev[..] == prev2;
      where, lists := where[p := -1], lists[n := RemoveAt(lists[n], k)];
      r := p;
    }

    lemma ListOf(p: nat)
      requires Valid() && p < NPROC && |where| == NPROC && where[p] >= 0
      ensures where[p] < |lists| && p in lists[where[p]]
    {
    }

    lemma NeighboursApart(p: nat, n: nat, k: nat)
      requires Valid() && n < |lists| && k < |lists[n]| && lists[n][k] == p
      ensures Item(lists[n], n, k - 1) != p && Item(lists[n], n, k + 1) != p
    {
      assert Owned(where, lists[n], n);
      ItemsApart(lists[n], n, k - 1, k, where);
      ItemsApart(lists[n], n, k, k + 1, where);
    }

    /** The process at the front of a list, removed; EMPTY if there is none. */
    method Getfirst(q: int, ghost n: nat) returns (r: int)
      requires Valid() && n < |lists| && q == QidOf(n)
      modifies qnext, qprev, `lists, `where
      ensures Valid() && (r == EMPTY <==> old(lists)[n] == [])
      ensures r == EMPTY ==> lists == old(lists) && where == old(where)
      ensures r != EMPTY ==> r == old(lists)[n][0] && 0 <= r < |old(where)|
      ensures r != EMPTY ==> lists == old(lists)[n := old(lists)[n][1..]] && where == old(where)[r := -1]
    {
      hide Queues, Sentinels;
      Members(n);
      Neighbours(n, -1);
      var first := Firstid(q, n);
      if first >= NPROC {
        return EMPTY;
      }
      var head := q;
      assert RemoveAt(lists[n], 0) == lists[n][1..];
      r := Getitem(qnext[head]);
    }

    /** The process at the end of a list, removed; EMPTY if there is none. */
    method Getlast(q: int, ghost n: nat) returns (r: int)
      requires Valid() && n < |lists| && q == QidOf(n)
      modifies qnext, qprev, `lists, `where
      ensures Valid() && (r == EMPTY <==> old(lists)[n] == []) && (r == EMPTY ==> lists == old(lists))
      ensures r != EMPTY ==>
                && r == old(lists)[n][|old(lists)[n]| - 1]
                && lists == old(lists)[n := old(lists)[n][..|old(lists)[n]| - 1]]
    {
      hide Queues, Sentinels;
      Members(n);
      Neighbours(n, |lists[n]| - 1);
      var first := Firstid(q, n);
      if first >= NPROC {
        return EMPTY;
      }
      var tail := q + 1;
      ghost var last := |lists[n]| - 1;
      LastIndex(n);
      assert RemoveAt(lists[n], last) == lists[n][..last];
      r := Getitem(qprev[tail]);
    }

    lemma LastIndex(n: nat)
      requires Valid() && n < |lists| && lists[n] != []
      ensures IndexOf(lists[n], lists[n][|lists[n]| - 1]) == |lists[n]| - 1
    {
      assert Owned(where, lists[n], n);
    }

    /** As getfirst; the links of the process are cleared. */
    method Dequeue(q: int, ghost n: nat) returns (r: int)
      requires Valid() && (!BadQid(q) ==> n < |lists| && q == QidOf(n))
      modifies qnext, qprev, `lists, `where
      ensures Valid() && (BadQid(q) ==> r == SYSERR && lists == old(lists) && where == old(where))
      ensures !BadQid(q) ==>
                (r == EMPTY <==> old(lists)[n] == []) && (r == EMPTY ==> lists == old(lists) && where == old(where))
      ensures !BadQid(q) && r != EMPTY ==> r == old(lists)[n][0] && 0 <= r < |old(where)|
      ensures !BadQid(q) && r != EMPTY ==> lists == old(lists)[n := old(lists)[n][1..]] && where == old(where)[r := -1]
    {
      hide Queues, Sentinels;
      if BadQid(q) {
        return SYSERR;
      }
      Members(n);
      var first := Firstid(q, n);
      if first >= NPROC {
        return EMPTY;
      }
      r := Getfirst(q, n);
      ClearLinks(r);
    }

    /** The links of a process that is on no list do not matter. */
    method ClearLinks(p: nat)
      requires Valid() && p < NPROC && where[p] == -1
      modifies qnext, qprev
      ensures Valid()
    {
      ghost var next, prev := qnext[..], qprev[..];
      qprev[p] := EMPTY;
      qnext[p] := EMPTY;
      forall n | 0 <= n < |lists|
        ensures Linked(qnext[..], qprev[..], lists[n], n)
      {
        assert Linked(next, prev, lists[n], n) && Owned(where, lists[n], n);
        LinkedApart(next, prev, qnext[..], qprev[..], lists[n], n, where);
      }
      assert forall n :: 0 <= n < |lists| ==> Owned(where, lists[n], n);
    }

    /** Insert a process into a list in descending order of keys, behind its
        equals. The scan ends at the tail because its key is the least there is. */
    method Insert(p: int, q: int, key: int, free: bool, ghost n: nat) returns (r: int)
      requires Valid()
      requires !BadQid(q) && !NoProcess(p, free) ==> n < |lists| && q == QidOf(n) && NotQueued(p) && MINKEY < key
      modifies qkey, qnext, qprev, `lists, `where
      ensures Valid() && r == if BadQid(q) || NoProcess(p, free) then SYSERR else OK
      ensures r == SYSERR ==> lists == old(lists) && where == old(where) && qkey[..] == old(qkey[..])
      ensures r == OK ==> n < |old(lists)| && 0 <= p < |old(where)| && p < |old(qkey[..])|
      ensures r == OK ==> where == old(where)[p := n] && qkey[..] == old(qkey[..])[p := key]
      ensures r == OK ==> forall j :: 0 <= j < |old(lists)[n]| ==> old(lists)[n][j] < |old(qkey[..])|
      ensures r == OK ==>
                lists == old(lists)[n := InsertAt(old(lists)[n], KeyPlace(old(lists)[n], old(qkey[..]), key), p)]
    {
      hide Queues, InsertAt, KeyPlace;
      if BadQid(q) || NoProcess(p, free) {
        return SYSERR;
      }
      Members(n);
      TailKey(n);
      ghost var list, keys, k := lists[n], qkey[..], 0;
      var curr := Firstid(q, n);
      while qkey[curr] >= key
        invariant 0 <= k <= |list| && curr == Item(list, n, k) && 0 <= curr < NQENT
        invariant forall j :: 0 <= j < k ==> keys[list[j]] >= key
        decreases |list| - k
        modifies {}
      {
        Neighbours(n, k);
        curr := qnext[curr];
        k := k + 1;
      }
      KeyPlaceIs(list, keys, key, k);
      Neighbours(n, k - 1);
      var prev := qprev[curr];
      SetKey(p, key);
      Link(p, n, k, prev, curr);
      r := OK;
    }

    lemma TailKey(n: nat)
      requires Valid() && n < |lists|
      ensures qkey[QidOf(n) + 1] == MINKEY
    {
      assert qkey[..][QidOf(n) + 1] == MINKEY;
    }

    method SetKey(p: nat, key: int)
      requires Valid() && p < NPROC
      modifies qkey
      ensures Valid() && qkey[..] == old(qkey[..])[p := key]
    {
      hide Queues;
      qkey[p] := key;
    }

    /** The scan of insertd: the neighbours the process goes between, and what is
        left of its delay there. */
    method FindDelta(q: int, d: int, ghost n: nat) returns (prev: int, next: int, key: int)
      requires Valid() && n < |lists| && q == QidOf(n)
      ensures forall j :: 0 <= j < |lists[n]| ==> lists[n][j] < NPROC
      ensures var k := DeltaPlace(lists[n], qkey[..], d);
              prev == Item(lists[n], n, k - 1) && next == Item(lists[n], n, k)
                && key == d - Prefix(lists[n], qkey[..], k)
    {
      hide Queues, Sentinels, DeltaPlace;
      Members(n);
      ghost var list, keys, k := lists[n], qkey[..], 0;
      key, prev := d, q;
      next := Firstid(q, n);
      while next != q + 1 && qkey[next] <= key
        invariant 0 <= k <= |list| && next == Item(list, n, k) && prev == Item(list, n, k - 1) && 0 <= next < NQENT
        invariant key == d - Prefix(list, keys, k)
        invariant forall j :: 0 <= j < k ==> keys[list[j]] <= d - Prefix(list, keys, j)
        decreases |list| - k
      {
        Neighbours(n, k);
        key := key - qkey[next];
        prev := next;
        next := qnext[next];
        k := k + 1;
      }
      DeltaPlaceIs(list, keys, d, k);
    }

    /** Insert a process into a delta list. */
    method Insertd(p: int, q: int, d: int, free: bool, ghost n: nat) returns (r: int)
      requires Valid() && (!BadQid(q) && !NoProcess(p, free) ==> n < |lists| && q == QidOf(n) && NotQueued(p))
      modifies qkey, qnext, qprev, `lists, `where
      ensures Valid() && r == if BadQid(q) || NoProcess(p, free) then SYSERR else OK
      ensures r == SYSERR ==> lists == old(lists) && where == old(where) && qkey[..] == old(qkey[..])
      ensures r == OK ==> n < |old(lists)| && 0 <= p < |old(where)| && p < |old(qkey[..])|
      ensures r == OK ==> where == old(where)[p := n]
      ensures r == OK ==> forall j :: 0 <= j < |old(lists)[n]| ==> old(lists)[n][j] < |old(qkey[..])|
      ensures r == OK ==>
                lists == old(lists)[n := InsertAt(old(lists)[n], DeltaPlace(old(lists)[n], old(qkey[..]), d), p)]
      ensures r == OK ==> qkey[..] == DeltaKeys(old(lists)[n], old(qkey[..]), p, d)
    {
      hide Queues, Sentinels, InsertAt, DeltaPlace, Prefix, DeltaKeys;
      if BadQid(q) || NoProcess(p, free) {
        return SYSERR;
      }
      Members(n);
      var prev, next, key := FindDelta(q, d, n);
      DeltaKeysIs(lists[n], qkey[..], p, d);
      ghost var k := DeltaPlace(lists[n], qkey[..], d);
      ghost var keys := qkey[..];
      Link(p, n, k, prev, next);
      SetKey(p, key);
      if next != q + 1 {
        SetKey(next, Int32(qkey[next] - key));
      }
      r := OK;
    }

    lemma TableRoom()
      requires Valid()
      ensures |lists| <= 2 + NSEM && |lists + [[]]| == |lists| + 1
    {
    }

    /** A new empty list. The test for a full table lets one call too many through:
        the first one that finds no room writes past the end of the table, and only
        those after it are refused. */
    method Newqueue() returns (r: NewList)
      requires Valid()
      modifies qkey, qnext, qprev, `lists, `nextqid
      ensures Valid() && (r.Made? <==> |old(lists)| < 2 + NSEM)
      ensures r.Made? ==> r.q == QidOf(|old(lists)|) && lists == old(lists) + [[]]
      ensures r == Outside <==> old(nextqid) == NQENT
      ensures r == Refused <==> old(nextqid) > NQENT
      ensures nextqid == if r == Refused then old(nextqid) else old(nextqid) + 2
      ensures !r.Made? ==>
                && lists == old(lists)
                && qkey[..] == old(qkey[..])
                && qnext[..] == old(qnext[..])
                && qprev[..] == old(qprev[..])
    {
      hide Queues, Sentinels;
      TableRoom();
      var q := nextqid;
      if q > NQENT {
        return Refused;
      }
      nextqid := nextqid + 2;
      if q + 1 >= NQENT {
        return Outside;
      }
      ghost var next, prev, keys := qnext[..], qprev[..], qkey[..];
      qnext[q] := q + 1;
      qprev[q] := EMPTY;
      qkey[q] := MAXKEY;
      qnext[q + 1] := EMPTY;
      qprev[q + 1] := q;
      qkey[q + 1] := MINKEY;
      QueuesMore(next, prev, where, lists);
      SentinelsMore(keys, |lists|);
      lists := lists + [[]];
      r := Made(q);
    }
  }

  /** From an empty table on, 2 + NSEM lists are made, the next call writes outside
      the table, and the one after it is refused. */
  method OneListTooMany() returns (made: nat, last: NewList, after: NewList)
    ensures made == 2 + NSEM && last == Outside && after == Refused
  {
    var tab := new QueueTab();
    made := 0;
    var r := tab.Newqueue();
    while r.Made?
      invariant tab.Valid() && fresh(tab) && fresh(tab.qkey) && fresh(tab.qnext) && fresh(tab.qprev)
      invariant made <= 2 + NSEM && |tab.lists| == if r.Made? then made + 1 else made
      invariant r.Made? || r == Outside
      invariant r.Made? ==> tab.nextqid == QidOf(|tab.lists|)
      invariant !r.Made? ==> made == 2 + NSEM && tab.nextqid > NQENT
      decreases r.Made?, 2 + NSEM - made
    {
      made := made + 1;
      r := tab.Newqueue();
    }
    last := r;
    after := tab.Newqueue();
  }

  /** Two free entries become an empty list. */
  lemma QueuesMore(next: seq<int>, prev: seq<int>, where: seq<int>, lists: seq<seq<nat>>)
    requires Queues(next, prev, where, lists) && |lists| < 2 + NSEM
    ensures var q := QidOf(|lists|);
            q + 1 < NQENT && Queues(next[q := q + 1][q + 1 := EMPTY], prev[q := EMPTY][q + 1 := q], where, lists + [[]])
  {
    var q, n := QidOf(|lists|), |lists|;
    var next2, prev2 := next[q := q + 1][q + 1 := EMPTY], prev[q := EMPTY][q + 1 := q];
    forall m | 0 <= m < n
      ensures Linked(next2, prev2, lists[m], m) && Owned(where, lists[m], m)
    {
      assert Linked(next, prev, lists[m], m) && Owned(where, lists[m], m);
      LinkedApart(next, prev, next2, prev2, lists[m], m, where);
    }
    assert Joined(next2, prev2, [], n, -1);
    assert Linked(next2, prev2, [], n) && Owned(where, [], n);
  }

  lemma SentinelsMore(key: seq<int>, count: nat)
    requires Sentinels(key, count) && count < 2 + NSEM
    ensures var q := QidOf(count); Sentinels(key[q := MAXKEY][q + 1 := MINKEY], count + 1)
  {
  }
}
