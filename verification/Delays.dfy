/** The delta list of sleeping processes as what it stands for: the ticks that
    remain for each of them. */
module Delays {
  import opened QueueTable
  import opened Queues

  function At(key: seq<int>, p: nat): int {
    if p < |key| then key[p] else 0
  }

  predicate InRange(list: seq<nat>, key: seq<int>) {
    forall j :: 0 <= j < |list| ==> list[j] < |key|
  }

  lemma RangeTail(list: seq<nat>, key: seq<int>)
    requires InRange(list, key) && list != []
    ensures InRange(list[1..], key) && list[0] < |key| && list == [list[0]] + list[1..]
  {
  }

  /** No process is on the list twice. */
  predicate Each(list: seq<nat>) {
    list == [] || (list[0] !in list[1..] && Each(list[1..]))
  }

  predicate NonNegative(list: seq<nat>, key: seq<int>) {
    list == [] || (At(key, list[0]) >= 0 && NonNegative(list[1..], key))
  }

  /** Ticks that remain for each process of the list, when base have to pass before
      its first delta: the sum of all deltas up to its own. */
  function Times(list: seq<nat>, key: seq<int>, base: int): (m: map<nat, int>)
    ensures forall p :: p in m <==> p in list
  {
    if list == [] then map[] else Times(list[1..], key, base + At(key, list[0]))[list[0] := base + At(key, list[0])]
  }

  function Total(list: seq<nat>, key: seq<int>): int {
    if list == [] then 0 else At(key, list[0]) + Total(list[1..], key)
  }

  lemma {:induction false} TotalPositive(list: seq<nat>, key: seq<int>)
    requires NonNegative(list, key)
    ensures Total(list, key) >= 0
  {
    if list != [] {
      TotalPositive(list[1..], key);
    }
  }

  /** Keys of processes that are not on the list do not matter. */
  lemma {:induction false} KeysElsewhere(list: seq<nat>, key: seq<int>, key2: seq<int>, base: int)
    requires forall p :: p in list ==> At(key2, p) == At(key, p)
    ensures Times(list, key2, base) == Times(list, key, base) && Total(list, key2) == Total(list, key)
    ensures NonNegative(list, key2) <==> NonNegative(list, key)
  {
    if list != [] {
      assert forall p :: p in list[1..] ==> p in list;
      KeysElsewhere(list[1..], key, key2, base + At(key, list[0]));
    }
  }

  /** Starting later shifts every time. */
  lemma {:induction false} TimesShift(list: seq<nat>, key: seq<int>, base: int, late: int)
    ensures forall p :: p in list ==> Times(list, key, base + late)[p] == Times(list, key, base)[p] + late
  {
    if list != [] {
      TimesShift(list[1..], key, base + At(key, list[0]), late);
      assert base + late + At(key, list[0]) == (base + At(key, list[0])) + late;
      forall p | p in list
        ensures Times(list, key, base + late)[p] == Times(list, key, base)[p] + late
      {
        if p != list[0] { assert p in list[1..]; }
      }
    }
  }

  /** The first member and the rest of a list put together again. */
  lemma Cons(h: nat, rest: seq<nat>, key: seq<int>, base: int)
    ensures Times([h] + rest, key, base) == Times(rest, key, base + At(key, h))[h := base + At(key, h)]
    ensures Total([h] + rest, key) == At(key, h) + Total(rest, key)
    ensures NonNegative([h] + rest, key) <==> At(key, h) >= 0 && NonNegative(rest, key)
    ensures Each([h] + rest) <==> h !in rest && Each(rest)
  {
    assert ([h] + rest)[1..] == rest;
  }

  // ------------------------------------------------------------- insertd

  lemma InsertTail(list: seq<nat>, k: nat, p: nat)
    requires list != [] && k < |list|
    ensures InsertAt(list, k + 1, p) == [list[0]] + InsertAt(list[1..], k, p)
  {
  }

  lemma {:induction false} DeltaKeysElsewhere(list: seq<nat>, key: seq<int>, p: nat, d: int, q: nat)
    requires p < |key| && InRange(list, key) && q < |key| && q != p && q !in list
    ensures DeltaKeys(list, key, p, d)[q] == key[q]
  {
    if |list| > 0 {
      DeltaKeysElsewhere(list[1..], key, p, d - key[list[0]], q);
    }
  }

  /** The result of insertd: the new process has its delay, all others the times
      they had. */
  ghost predicate Inserted(list: seq<nat>, key: seq<int>, list2: seq<nat>, key2: seq<int>, p: nat, d: int, base: int) {
    && NonNegative(list2, key2) && Times(list2, key2, base) == Times(list, key, base)[p := base + d]
    && Total(list2, key2) == if d > Total(list, key) then d else Total(list, key)
  }

  lemma InsertFront(h: nat, rest: seq<nat>, key: seq<int>, key2: seq<int>, p: nat, d: int, base: int)
    requires Each([h] + rest) && NonNegative([h] + rest, key) && p != h && p !in rest && 0 <= d < At(key, h)
    requires At(key2, p) == d && At(key2, h) == At(key, h) - d && forall q :: q in rest ==> At(key2, q) == At(key, q)
    ensures Inserted([h] + rest, key, [p] + ([h] + rest), key2, p, d, base)
  {
    hide Times, Total, NonNegative, Each, At;
    Cons(h, rest, key, base);
    KeysElsewhere(rest, key, key2, base + At(key, h));
    Cons(h, rest, key2, base + d);
    assert base + d + At(key2, h) == base + At(key, h);
    assert Times([h] + rest, key2, base + d) == Times([h] + rest, key, base);
    Cons(p, [h] + rest, key2, base);
    TotalPositive(rest, key);
  }

  lemma InsertBehind(h: nat, rest: seq<nat>, key: seq<int>, rest2: seq<nat>, key2: seq<int>, p: nat, d: int, base: int)
    requires 0 <= At(key, h) <= d && p != h && At(key2, h) == At(key, h)
    requires Inserted(rest, key, rest2, key2, p, d - At(key, h), base + At(key, h))
    ensures Inserted([h] + rest, key, [h] + rest2, key2, p, d, base)
  {
    hide Times, Total, NonNegative, Each, At;
    Cons(h, rest, key, base);
    Cons(h, rest2, key2, base);
    assert base + At(key, h) + (d - At(key, h)) == base + d;
    var m: map<nat, int> := Times(rest, key, base + At(key, h));
    assert m[p := base + d][h := base + At(key, h)] == m[h := base + At(key, h)][p := base + d];
  }

  lemma InsertEmpty(key: seq<int>, p: nat, d: int, base: int)
    requires p < |key| && 0 <= d
    ensures Inserted([], key, InsertAt([], DeltaPlace([], key, d), p), DeltaKeys([], key, p, d), p, d, base)
  {
    assert InsertAt([], 0, p) == [p] + [];
    Cons(p, [], key[p := d], base);
  }

  /** One step of the scan of insertd. */
  lemma ScanStep(list: seq<nat>, key: seq<int>, p: nat, d: int)
    requires InRange(list, key) && list != [] && p < |key|
    ensures InRange(list[1..], key) && list[0] < |key|
    ensures key[list[0]] > d ==>
              InsertAt(list, DeltaPlace(list, key, d), p) == [p] + list
                && DeltaKeys(list, key, p, d) == key[p := d][list[0] := Int32(key[list[0]] - d)]
    ensures key[list[0]] <= d ==>
              && InsertAt(list, DeltaPlace(list, key, d), p) ==
                   [list[0]] + InsertAt(list[1..], DeltaPlace(list[1..], key, d - key[list[0]]), p)
              && DeltaKeys(list, key, p, d) == DeltaKeys(list[1..], key, p, d - key[list[0]])
  {
    if key[list[0]] <= d {
      InsertTail(list, DeltaPlace(list[1..], key, d - key[list[0]]), p);
    }
  }

  /** A delay of at most 31 bits goes in without changing any other time. */
  lemma {:induction false} InsertdTimes(list: seq<nat>, key: seq<int>, p: nat, d: int, base: int)
    requires InRange(list, key) && Each(list) && NonNegative(list, key) && Total(list, key) <= MAXKEY
    requires p < |key| && p !in list && 0 <= d <= MAXKEY
    ensures Inserted(list, key, InsertAt(list, DeltaPlace(list, key, d), p), DeltaKeys(list, key, p, d), p, d, base)
    decreases |list|
  {
    hide Inserted, Times, Total, NonNegative, Each, InRange, InsertAt, Int32, DeltaPlace, DeltaKeys;
    if list == [] {
      InsertEmpty(key, p, d, base);
    } else {
      var h, rest := list[0], list[1..];
      assert list == [h] + rest;
      Cons(h, rest, key, base);
      ScanStep(list, key, p, d);
      TotalPositive(rest, key);
      if key[h] > d {
        Int32Same(key[h] - d);
        InsertFront(h, rest, key, DeltaKeys(list, key, p, d), p, d, base);
      } else {
        InsertdTimes(rest, key, p, d - key[h], base + key[h]);
        DeltaKeysElsewhere(rest, key, p, d - key[h], h);
        InsertBehind(h, rest, key, InsertAt(rest, DeltaPlace(rest, key, d - key[h]), p), DeltaKeys(list, key, p, d),
          p, d, base);
      }
    }
  }

  // ------------------------------------------------------------- unsleep

  /** unsleep gives the delta of the process at place k to the one behind it. */
  function UnsleepKeys(list: seq<nat>, key: seq<int>, k: nat): (r: seq<int>)
    requires k < |list| && InRange(list, key)
    ensures |r| == |key|
  {
    if k + 1 < |list| then key[list[k + 1] := key[list[k + 1]] + key[list[k]]] else key
  }

  lemma RemoveTail(list: seq<nat>, k: nat)
    requires k < |list|
    ensures k > 0 ==> RemoveAt(list, k) == [list[0]] + RemoveAt(list[1..], k - 1)
    ensures k == 0 ==> RemoveAt(list, k) == list[1..]
    ensures list == [list[0]] + list[1..]
  {
  }

  /** Removing a process from the front of the list. */
  lemma UnsleepFirst(h: nat, n: nat, rest: seq<nat>, key: seq<int>, key2: seq<int>, base: int)
    requires Each([h] + ([n] + rest)) && NonNegative([h] + ([n] + rest), key)
    requires At(key2, n) == At(key, n) + At(key, h) && forall q :: q in rest ==> At(key2, q) == At(key, q)
    ensures Times([n] + rest, key2, base) == Times([h] + ([n] + rest), key, base) - {h} && NonNegative([n] + rest, key2)
    ensures Total([n] + rest, key2) == Total([h] + ([n] + rest), key)
  {
    hide Times, Total, NonNegative, Each, At;
    Cons(h, [n] + rest, key, base);
    Cons(n, rest, key, base + At(key, h));
    Cons(n, rest, key2, base);
    KeysElsewhere(rest, key, key2, base + At(key, h) + At(key, n));
    assert base + At(key2, n) == base + At(key, h) + At(key, n);
    assert h !in [n] + rest;
  }

  lemma UnsleepOnly(h: nat, key: seq<int>, base: int)
    requires NonNegative([h], key)
    ensures Times([], key, base) == Times([h], key, base) - {h} && Total([], key) <= Total([h], key)
    ensures NonNegative([], key)
  {
    assert [h] == [h] + [];
    Cons(h, [], key, base);
  }

  lemma UnsleepLater(h: nat, rest: seq<nat>, key: seq<int>, less: seq<nat>, key2: seq<int>, p: nat, base: int)
    requires NonNegative([h] + rest, key) && p != h && At(key2, h) == At(key, h)
    requires Times(less, key2, base + At(key, h)) == Times(rest, key, base + At(key, h)) - {p}
    requires NonNegative(less, key2)
    requires Total(less, key2) <= Total(rest, key)
    ensures Times([h] + less, key2, base) == Times([h] + rest, key, base) - {p} && NonNegative([h] + less, key2)
    ensures Total([h] + less, key2) <= Total([h] + rest, key)
  {
    hide Times, Total, NonNegative, Each, At;
    Cons(h, rest, key, base);
    Cons(h, less, key2, base);
  }

  /** Removing a process leaves the time of every other process as it was. */
  lemma {:induction false} UnsleepTimes(list: seq<nat>, key: seq<int>, k: nat, base: int)
    requires k < |list| && InRange(list, key) && Each(list) && NonNegative(list, key)
    ensures Times(RemoveAt(list, k), UnsleepKeys(list, key, k), base) == Times(list, key, base) - {list[k]}
    ensures NonNegative(RemoveAt(list, k), UnsleepKeys(list, key, k))
    ensures Total(RemoveAt(list, k), UnsleepKeys(list, key, k)) <= Total(list, key)
    decreases |list|
  {
    hide Times, Total, NonNegative, Each, RemoveAt;
    var h, rest, key2 := list[0], list[1..], UnsleepKeys(list, key, k);
    RemoveTail(list, k);
    RangeTail(list, key);
    Cons(h, rest, key, base);
    if k == 0 {
      if rest == [] {
        assert list == [h];
        UnsleepOnly(h, key, base);
      } else {
        var n, more := rest[0], rest[1..];
        assert rest == [n] + more;
        Cons(n, more, key, base);
        assert n == list[1];
        UnsleepFirst(h, n, more, key, key2, base);
      }
    } else {
      assert list[k] == rest[k - 1] && list[k] in rest && key2 == UnsleepKeys(rest, key, k - 1);
      assert k + 1 < |list| ==> list[k + 1] == rest[k] && rest[k] in rest;
      assert At(key2, h) == At(key, h);
      hide UnsleepKeys;
      UnsleepTimes(rest, key, k - 1, base + At(key, h));
      UnsleepLater(h, rest, key, RemoveAt(rest, k - 1), key2, list[k], base);
    }
  }

  // ------------------------------------------------------------- the clock

  /** A tick takes one from the first delta, and so from every time. */
  lemma TickTimes(h: nat, rest: seq<nat>, key: seq<int>)
    requires h < |key| && h !in rest
    ensures forall p :: p in [h] + rest ==>
              Times([h] + rest, key[h := key[h] - 1], 0)[p] == Times([h] + rest, key, 0)[p] - 1
    ensures Total([h] + rest, key[h := key[h] - 1]) == Total([h] + rest, key) - 1
    ensures NonNegative(rest, key[h := key[h] - 1]) <==> NonNegative(rest, key)
  {
    hide Times, Total, NonNegative, Each;
    var key2 := key[h := key[h] - 1];
    Cons(h, rest, key, -1);
    Cons(h, rest, key2, 0);
    KeysElsewhere(rest, key, key2, -1 + key[h]);
    assert 0 + At(key2, h) == -1 + At(key, h);
    assert Times([h] + rest, key2, 0) == Times([h] + rest, key, -1);
    TimesShift([h] + rest, key, 0, -1);
  }

  /** How many processes wakeup takes off the front. */
  function Expired(list: seq<nat>, key: seq<int>): (k: nat)
    ensures k <= |list| && forall j :: 0 <= j < k ==> At(key, list[j]) <= 0
    ensures k < |list| ==> At(key, list[k]) > 0
  {
    if list == [] || At(key, list[0]) > 0 then 0 else 1 + Expired(list[1..], key)
  }

  /** Every time is at least what had to pass before. */
  lemma {:induction false} TimesAtLeast(list: seq<nat>, key: seq<int>, base: int)
    requires NonNegative(list, key)
    ensures forall p :: p in list ==> Times(list, key, base)[p] >= base
    ensures list != [] && At(key, list[0]) > 0 ==> forall p :: p in list ==> Times(list, key, base)[p] > base
  {
    if list != [] {
      TimesAtLeast(list[1..], key, base + At(key, list[0]));
      forall p | p in list
        ensures Times(list, key, base)[p] >= base + At(key, list[0])
      {
        if p != list[0] { assert p in list[1..]; }
      }
    }
  }

  /** wakeup readies exactly those with no time left, and no other time changes. */
  lemma {:induction false} WakeupTimes(list: seq<nat>, key: seq<int>)
    requires Each(list) && NonNegative(list, key)
    ensures var k := Expired(list, key);
            && (forall p :: p in list[..k] ==> Times(list, key, 0)[p] == 0)
            && (forall p :: p in list[k..] ==> p in list && Times(list[k..], key, 0)[p] == Times(list, key, 0)[p] > 0)
            && NonNegative(list[k..], key) && Each(list[k..])
    decreases |list|
  {
    hide Times, NonNegative, Each;
    if list == [] || At(key, list[0]) > 0 {
      TimesAtLeast(list, key, 0);
      assert list[..0] == [] && list[0..] == list;
    } else {
      var h, rest := list[0], list[1..];
      assert list == [h] + rest;
      WakeFirst(h, rest, key);
      WakeupTimes(rest, key);
      var k := Expired(rest, key);
      assert list[..k + 1] == [h] + rest[..k] && list[k + 1..] == rest[k..];
      forall p | p in list[..k + 1]
        ensures Times(list, key, 0)[p] == 0
      {
        if p != h { assert p in rest[..k] && p in rest; }
      }
      forall p | p in rest[k..]
        ensures p in list && p != h && p in rest
      {
      }
    }
  }

  /** A process with no delta in front changes no other time. */
  lemma WakeFirst(h: nat, rest: seq<nat>, key: seq<int>)
    requires Each([h] + rest) && NonNegative([h] + rest, key) && At(key, h) <= 0
    ensures Each(rest) && NonNegative(rest, key) && h !in rest && At(key, h) == 0
    ensures Times([h] + rest, key, 0)[h] == 0
    ensures forall p :: p in rest ==> Times([h] + rest, key, 0)[p] == Times(rest, key, 0)[p]
  {
    Cons(h, rest, key, 0);
  }

  /** One clock tick: while the first delta is positive, exactly those with one
      tick left are readied and all others have one tick less. A first delta of
      zero, which only a timed receive of no time leaves, loses the tick for
      everyone who stays. */
  lemma ClockTick(list: seq<nat>, key: seq<int>)
    requires list != [] && InRange(list, key) && Each(list) && NonNegative(list, key)
    ensures var key2 := key[list[0] := key[list[0]] - 1];
            var k := Expired(list, key2);
            && k <= |list| && NonNegative(list[k..], key2) && Each(list[k..])
            && (forall p :: p in list[k..] ==> p in list && Times(list[k..], key2, 0)[p] > 0)
            && (key[list[0]] >= 1 ==>
                  && (forall p :: p in list[..k] ==> p in list && Times(list, key, 0)[p] == 1)
                  && forall p :: p in list[k..] ==> Times(list[k..], key2, 0)[p] == Times(list, key, 0)[p] - 1)
            && (key[list[0]] == 0 ==> forall p :: p in list[k..] ==>
                 Times(list[k..], key2, 0)[p] == Times(list, key, 0)[p])
  {
    hide Times, NonNegative, Each;
    var h, rest := list[0], list[1..];
    var key2 := key[h := key[h] - 1];
    RangeTail(list, key);
    Cons(h, rest, key, 0);
    Cons(h, rest, key2, 0);
    TickTimes(h, rest, key);
    if key[h] >= 1 {
      WakeupTimes(list, key2);
      assert forall p :: p in list[..Expired(list, key2)] ==> p in list;
    } else {
      // the first process has no time left; the deltas behind it are untouched
      WakeupTimes(rest, key2);
      KeysElsewhere(rest, key, key2, 0);
      WakeFirst(h, rest, key);
      assert Expired(list, key2) == 1 + Expired(rest, key2);
      assert list[Expired(list, key2)..] == rest[Expired(rest, key2)..];
      forall p | p in rest[Expired(rest, key2)..]
        ensures p in list && p in rest
      {
      }
    }
  }

  /** A sleep of more than 2^31 ms becomes a negative delay: the process goes to the
      front and is readied by the very next tick. */
  lemma LongSleepIsLost(list: seq<nat>, key: seq<int>, p: nat, d: int)
    requires InRange(list, key) && NonNegative(list, key) && p < |key| && p !in list && 0x8000_0000 < d < 0x1_0000_0000
    ensures var list2, key2 := InsertAt(list, DeltaPlace(list, key, Int32(d)), p), DeltaKeys(list, key, p, Int32(d));
            && list2 != [] && list2[0] == p && key2[p] < 0
            && Expired(list2, key2[p := Int32(key2[p] - 1)]) >= 1
  {
    assert Int32(d) == d - 0x1_0000_0000;
    Int32Same(Int32(d) - 1);
    hide Int32;
    assert DeltaPlace(list, key, Int32(d)) == 0;
    var list2, key2 := InsertAt(list, 0, p), DeltaKeys(list, key, p, Int32(d));
    assert list2[0] == p;
    if list != [] { assert list[0] in list; }
    assert key2[p] == Int32(d);
  }
}
