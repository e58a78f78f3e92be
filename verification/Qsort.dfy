/** The in-place three-way quicksort of the library. Memory is a byte array,
    elements are es bytes wide, and a pointer into the area being sorted is
    kept as the index of the element it points at. */
module Qsort {

  newtype byte = b: int | 0 <= b < 256

  type Element = seq<byte>

  // ------------------------------------------------------------ memory layout

  /** The address of element k of an area that starts at address 0. */
  function Address(es: nat, k: nat): nat {
    if k == 0 then 0 else Address(es, k - 1) + es
  }

  lemma {:induction false} AddressIsProduct(es: nat, k: nat)
    ensures Address(es, k) == k * es
  {
    if k != 0 {
      AddressIsProduct(es, k - 1);
    }
  }

  lemma {:induction false} Apart(es: nat, i: nat, j: nat)
    requires i < j
    ensures Address(es, i) + es <= Address(es, j)
  {
    if i < j - 1 {
      Apart(es, i, j - 1);
    }
  }

  function ElementAt(mem: seq<byte>, es: nat, k: nat): (e: Element)
    requires Address(es, k) + es <= |mem|
    ensures |e| == es
  {
    mem[Address(es, k)..Address(es, k) + es]
  }

  /** The first n elements of memory. */
  function Elements(mem: seq<byte>, es: nat, n: nat): (s: seq<Element>)
    requires Address(es, n) <= |mem|
    ensures |s| == n
  {
    seq(n, k requires 0 <= k < n => Apart(es, k, n); ElementAt(mem, es, k))
  }

  // ---------------------------------------------------------------- exchanges

  function Swapped<T>(s: seq<T>, i: nat, j: nat): (r: seq<T>)
    requires i < |s| && j < |s|
    ensures |r| == |s|
  {
    s[i := s[j]][j := s[i]]
  }

  /** Element i takes element k, k takes j and j takes i, in that order. */
  function Rotated<T>(s: seq<T>, i: nat, j: nat, k: nat): (r: seq<T>)
    requires i < |s| && j < |s| && k < |s|
    ensures |r| == |s|
  {
    var s1 := s[i := s[k]];
    var s2 := s1[k := s1[j]];
    s2[j := s[i]]
  }

  lemma RotateIsTwoSwaps<T>(s: seq<T>, i: nat, j: nat, k: nat)
    requires i < |s| && j < |s| && k < |s| && i != j
    ensures Rotated(s, i, j, k) == Swapped(Swapped(s, i, k), k, j)
  {
  }

  /** Exchange es bytes at ri with es bytes at rj. */
  method Qsexc(mem: array<byte>, es: nat, ri: nat, rj: nat)
    requires 0 < es && ri + es <= mem.Length && rj + es <= mem.Length
    requires ri == rj || ri + es <= rj || rj + es <= ri
    modifies mem
    ensures mem[ri..ri + es] == old(mem[rj..rj + es])
    ensures mem[rj..rj + es] == old(mem[ri..ri + es])
    ensures forall p :: 0 <= p < mem.Length && !(ri <= p < ri + es) && !(rj <= p < rj + es) ==> mem[p] == old(mem[p])
  {
    var m := 0;
    while m < es
      invariant 0 <= m <= es
      invariant forall p :: 0 <= p < mem.Length ==>
        mem[p] == if ri <= p < ri + m then old(mem[rj + (p - ri)])
                  else if rj <= p < rj + m then old(mem[ri + (p - rj)]) else old(mem[p])
    {
      var c := mem[ri + m];
      mem[ri + m] := mem[rj + m];
      mem[rj + m] := c;
      m := m + 1;
    }
  }

  /** One turn of the rotation. */
  method RotateBytes(mem: array<byte>, i: nat, j: nat, k: nat)
    requires i < mem.Length && j < mem.Length && k < mem.Length && i != j && i != k
    modifies mem
    ensures mem[..] == Rotated(old(mem[..]), i, j, k)
  {
    var c := mem[i];
    mem[i] := mem[k];
    mem[k] := mem[j];
    mem[j] := c;
  }

  ghost predicate Disjoint(es: nat, r: nat, q: nat) {
    r + es <= q || q + es <= r
  }

  /** The first m bytes of three blocks have been turned. */
  ghost predicate Turned(a: seq<byte>, b: seq<byte>, m: nat, ri: nat, rj: nat, rk: nat)
    requires |a| == |b| && ri + m <= |a| && rj + m <= |a| && rk + m <= |a|
  {
    && (forall p :: rj <= p < rj + m ==> b[p] == a[ri + (p - rj)])
    && (forall p :: ri <= p < ri + m ==> b[p] == a[rk + (p - ri)])
    && (rk != rj ==> forall p :: rk <= p < rk + m ==> b[p] == a[rj + (p - rk)])
    && (forall p :: 0 <= p < |a| && !(ri <= p < ri + m) && !(rj <= p < rj + m) && !(rk <= p < rk + m) ==> b[p] == a[p])
  }

  lemma TurnStep(a: seq<byte>, b: seq<byte>, m: nat, es: nat, ri: nat, rj: nat, rk: nat)
    requires |a| == |b| && m < es && ri + es <= |a| && rj + es <= |a| && rk + es <= |a|
    requires Disjoint(es, ri, rj) && Disjoint(es, rk, ri) && (rk == rj || Disjoint(es, rk, rj))
    requires Turned(a, b, m, ri, rj, rk)
    ensures Turned(a, Rotated(b, ri + m, rj + m, rk + m), m + 1, ri, rj, rk)
  {
    var c := Rotated(b, ri + m, rj + m, rk + m);
    assert b[ri + m] == a[ri + m] && b[rj + m] == a[rj + m] && b[rk + m] == a[rk + m];
    forall p | rj <= p < rj + m + 1
      ensures c[p] == a[ri + (p - rj)]
    {
    }
    forall p | ri <= p < ri + m + 1
      ensures c[p] == a[rk + (p - ri)]
    {
    }
  }

  /** Memory after m turns. */
  function Turns(a: seq<byte>, m: nat, ri: nat, rj: nat, rk: nat): (b: seq<byte>)
    requires ri + m <= |a| && rj + m <= |a| && rk + m <= |a|
    ensures |b| == |a|
  {
    if m == 0 then a else Rotated(Turns(a, m - 1, ri, rj, rk), ri + m - 1, rj + m - 1, rk + m - 1)
  }

  lemma {:induction false} TurnsTurn(a: seq<byte>, m: nat, es: nat, ri: nat, rj: nat, rk: nat)
    requires m <= es && ri + es <= |a| && rj + es <= |a| && rk + es <= |a|
    requires Disjoint(es, ri, rj) && Disjoint(es, rk, ri) && (rk == rj || Disjoint(es, rk, rj))
    ensures Turned(a, Turns(a, m, ri, rj, rk), m, ri, rj, rk)
  {
    hide Rotated;
    if m != 0 {
      TurnsTurn(a, m - 1, es, ri, rj, rk);
      TurnStep(a, Turns(a, m - 1, ri, rj, rk), m - 1, es, ri, rj, rk);
    }
  }

  /** Rotate three blocks of es bytes; the third may be the second. */
  method Qstexc(mem: array<byte>, es: nat, ri: nat, rj: nat, rk: nat)
    requires 0 < es && ri + es <= mem.Length && rj + es <= mem.Length && rk + es <= mem.Length
    requires Disjoint(es, ri, rj) && Disjoint(es, rk, ri) && (rk == rj || Disjoint(es, rk, rj))
    modifies mem
    ensures mem[..] == Turns(old(mem[..]), es, ri, rj, rk)
  {
    hide Rotated;
    ghost var was := mem[..];
    var m := 0;
    while m < es
      invariant 0 <= m <= es
      invariant mem[..] == Turns(was, m, ri, rj, rk)
    {
      RotateBytes(mem, ri + m, rj + m, rk + m);
      m := m + 1;
    }
  }

  // ------------------------------------------------------ exchanged elements

  lemma ElementUnchanged(a: seq<byte>, b: seq<byte>, es: nat, k: nat)
    requires |a| == |b| && Address(es, k) + es <= |a|
    requires forall p :: Address(es, k) <= p < Address(es, k) + es ==> b[p] == a[p]
    ensures ElementAt(b, es, k) == ElementAt(a, es, k)
  {
  }

  lemma AddressesApart(es: nat, i: nat, j: nat)
    requires i != j
    ensures Disjoint(es, Address(es, i), Address(es, j))
  {
    if i < j { Apart(es, i, j); } else { Apart(es, j, i); }
  }

  lemma SwapElements(a: seq<byte>, b: seq<byte>, es: nat, n: nat, i: nat, j: nat)
    requires |a| == |b| && Address(es, n) <= |a| && i < n && j < n
    requires Address(es, i) + es <= |a| && Address(es, j) + es <= |a|
    requires ElementAt(b, es, i) == ElementAt(a, es, j) && ElementAt(b, es, j) == ElementAt(a, es, i)
    requires forall p | 0 <= p < |a| && !(Address(es, i) <= p < Address(es, i) + es)
                        && !(Address(es, j) <= p < Address(es, j) + es) :: b[p] == a[p]
    ensures Elements(b, es, n) == Swapped(Elements(a, es, n), i, j)
  {
    var ea, eb := Elements(a, es, n), Elements(b, es, n);
    forall k | 0 <= k < n
      ensures eb[k] == Swapped(ea, i, j)[k]
    {
      Apart(es, k, n);
      if k != i && k != j {
        AddressesApart(es, k, i);
        AddressesApart(es, k, j);
        ElementUnchanged(a, b, es, k);
      }
    }
  }

  lemma TurnedSlices(a: seq<byte>, b: seq<byte>, es: nat, ri: nat, rj: nat, rk: nat)
    requires |a| == |b| && ri + es <= |a| && rj + es <= |a| && rk + es <= |a|
    requires Turned(a, b, es, ri, rj, rk)
    ensures b[rj..rj + es] == a[ri..ri + es]
    ensures b[ri..ri + es] == a[rk..rk + es]
    ensures rk != rj ==> b[rk..rk + es] == a[rj..rj + es]
  {
  }

  /** Three blocks turned: the elements they hold have turned. */
  lemma TurnedBlocks(a: seq<byte>, b: seq<byte>, es: nat, i: nat, j: nat, k: nat)
    requires 0 < es && |a| == |b| && i != j && i != k
    requires Address(es, i) + es <= |a| && Address(es, j) + es <= |a| && Address(es, k) + es <= |a|
    requires Turned(a, b, es, Address(es, i), Address(es, j), Address(es, k))
    ensures ElementAt(b, es, j) == ElementAt(a, es, i)
    ensures ElementAt(b, es, i) == ElementAt(a, es, k)
    ensures j != k ==> ElementAt(b, es, k) == ElementAt(a, es, j)
  {
    hide Turned;
    TurnedSlices(a, b, es, Address(es, i), Address(es, j), Address(es, k));
    if j != k {
      AddressesApart(es, j, k);
    }
  }

  lemma OtherBlock(a: seq<byte>, b: seq<byte>, es: nat, i: nat, j: nat, k: nat, x: nat)
    requires |a| == |b| && x != i && x != j && x != k && Address(es, x) + es <= |a|
    requires Address(es, i) + es <= |a| && Address(es, j) + es <= |a| && Address(es, k) + es <= |a|
    requires Turned(a, b, es, Address(es, i), Address(es, j), Address(es, k))
    ensures ElementAt(b, es, x) == ElementAt(a, es, x)
  {
    AddressesApart(es, x, i);
    AddressesApart(es, x, j);
    AddressesApart(es, x, k);
  }

  lemma RotateElements(a: seq<byte>, b: seq<byte>, es: nat, n: nat, i: nat, j: nat, k: nat)
    requires 0 < es && |a| == |b| && Address(es, n) <= |a| && i < n && j < n && k < n && i != j && i != k
    requires Address(es, i) + es <= |a| && Address(es, j) + es <= |a| && Address(es, k) + es <= |a|
    requires Turned(a, b, es, Address(es, i), Address(es, j), Address(es, k))
    ensures Elements(b, es, n) == Rotated(Elements(a, es, n), i, j, k)
  {
    hide Turned, ElementAt;
    var ea, eb := Elements(a, es, n), Elements(b, es, n);
    TurnedBlocks(a, b, es, i, j, k);
    forall x | 0 <= x < n
      ensures eb[x] == Rotated(ea, i, j, k)[x]
    {
      Apart(es, x, n);
      if x != i && x != j && x != k {
        OtherBlock(a, b, es, i, j, k, x);
      }
    }
  }

  /** Exchange elements i and j. */
  method ExchangeElements(mem: array<byte>, es: nat, ghost n: nat, i: nat, j: nat)
    requires 0 < es && Address(es, n) <= mem.Length && i < n && j < n
    modifies mem
    ensures Elements(mem[..], es, n) == Swapped(old(Elements(mem[..], es, n)), i, j)
  {
    Apart(es, i, n);
    Apart(es, j, n);
    if i != j { AddressesApart(es, i, j); }
    ghost var was := mem[..];
    Qsexc(mem, es, Address(es, i), Address(es, j));
    SwapElements(was, mem[..], es, n, i, j);
  }

  /** Element i takes element k, k takes j and j takes i. */
  method TurnElements(mem: array<byte>, es: nat, ghost n: nat, i: nat, j: nat, k: nat)
    requires 0 < es && Address(es, n) <= mem.Length && i < n && j < n && k < n && i != j && i != k
    modifies mem
    ensures Elements(mem[..], es, n) == Rotated(old(Elements(mem[..], es, n)), i, j, k)
  {
    Apart(es, i, n);
    Apart(es, j, n);
    Apart(es, k, n);
    AddressesApart(es, i, j);
    AddressesApart(es, i, k);
    if j != k { AddressesApart(es, j, k); }
    ghost var was := mem[..];
    Qstexc(mem, es, Address(es, i), Address(es, j), Address(es, k));
    TurnsTurn(was, es, es, Address(es, i), Address(es, j), Address(es, k));
    RotateElements(was, mem[..], es, n, i, j, k);
  }

  // ----------------------------------------------------------------- sorting

  /** The comparison routine, by the sign of its result. */
  type Compare = (Element, Element) -> int

  /** The comparison is a total preorder on elements of es bytes. */
  ghost predicate TotalPreorder(cmp: Compare, es: nat) {
    && (forall x, y :: |x| == es && |y| == es ==> (cmp(x, y) <= 0 <==> cmp(y, x) >= 0))
    && (forall x, y, z :: |x| == es && |y| == es && |z| == es && cmp(x, y) <= 0 && cmp(y, z) <= 0 ==> cmp(x, z) <= 0)
  }

  predicate Sized(s: seq<Element>, es: nat) {
    forall x :: 0 <= x < |s| ==> |s[x]| == es
  }

  lemma ElementsSized(mem: seq<byte>, es: nat, n: nat)
    requires Address(es, n) <= |mem|
    ensures Sized(Elements(mem, es, n), es)
  {
    forall k | 0 <= k < n
      ensures |Elements(mem, es, n)[k]| == es
    {
      Apart(es, k, n);
    }
  }

  ghost predicate Sorted(s: seq<Element>, cmp: Compare) {
    forall x, y :: 0 <= x < y < |s| ==> cmp(s[x], s[y]) <= 0
  }

  /** s and t agree outside [lo, hi) and hold the same elements inside. */
  ghost predicate SegmentPermuted(s: seq<Element>, t: seq<Element>, lo: nat, hi: nat)
    requires lo <= hi <= |s|
  {
    && |t| == |s|
    && (forall x :: 0 <= x < lo || hi <= x < |s| ==> t[x] == s[x])
    && multiset(t[lo..hi]) == multiset(s[lo..hi])
  }

  lemma SegmentMembers(s: seq<Element>, t: seq<Element>, lo: nat, hi: nat, x: nat) returns (y: nat)
    requires lo <= x < hi <= |s| && SegmentPermuted(s, t, lo, hi)
    ensures lo <= y < hi && s[y] == t[x]
  {
    assert t[x] == t[lo..hi][x - lo];
    assert t[x] in multiset(t[lo..hi]);
    assert t[x] in s[lo..hi];
    var z :| 0 <= z < |s[lo..hi]| && s[lo..hi][z] == t[x];
    y := z + lo;
  }

  lemma SwapPermutes(s: seq<Element>, i: nat, j: nat, lo: nat, hi: nat)
    requires lo <= i < hi <= |s| && lo <= j < hi
    ensures SegmentPermuted(s, Swapped(s, i, j), lo, hi)
  {
    var t := Swapped(s, i, j);
    assert t[lo..hi] == Swapped(s[lo..hi], i - lo, j - lo);
  }

  lemma PermutedTrans(s: seq<Element>, t: seq<Element>, u: seq<Element>, lo: nat, hi: nat)
    requires lo <= hi <= |s| && SegmentPermuted(s, t, lo, hi) && SegmentPermuted(t, u, lo, hi)
    ensures SegmentPermuted(s, u, lo, hi)
  {
  }

  lemma PermutedWider(s: seq<Element>, t: seq<Element>, lo: nat, hi: nat, a: nat, l: nat)
    requires a <= lo <= hi <= l <= |s| && SegmentPermuted(s, t, lo, hi)
    ensures SegmentPermuted(s, t, a, l)
  {
    assert s[a..l] == s[a..lo] + s[lo..hi] + s[hi..l];
    assert t[a..l] == t[a..lo] + t[lo..hi] + t[hi..l];
    assert t[a..lo] == s[a..lo] && t[hi..l] == s[hi..l];
  }

  lemma TurnPermutes(s: seq<Element>, i: nat, j: nat, k: nat, lo: nat, hi: nat)
    requires lo <= i < hi <= |s| && lo <= j < hi && lo <= k < hi && i != j && i != k
    ensures SegmentPermuted(s, Rotated(s, i, j, k), lo, hi)
  {
    RotateIsTwoSwaps(s, i, j, k);
    SwapPermutes(s, i, k, lo, hi);
    SwapPermutes(Swapped(s, i, k), k, j, lo, hi);
    PermutedTrans(s, Swapped(s, i, k), Rotated(s, i, j, k), lo, hi);
  }

  /** The state of the partition loop on [a, l) with pivot p: elements below i
      are less than p, those of [lp, hp] equal it, those above j are greater. */
  ghost predicate Partitioned(s: seq<Element>, cmp: Compare, p: Element, a: nat, i: nat, lp: nat, hp: nat, j: nat,
      l: nat) {
    && a <= i <= lp <= hp <= j < l <= |s|
    && (forall x :: a <= x < i ==> cmp(s[x], p) < 0)
    && (forall x :: lp <= x <= hp ==> cmp(s[x], p) == 0)
    && (forall x :: j < x < l ==> cmp(s[x], p) > 0)
  }

  /** Comparing with an element equal to the pivot is comparing with the pivot. */
  lemma PivotCopy(cmp: Compare, es: nat, p: Element, q: Element, e: Element)
    requires TotalPreorder(cmp, es) && |p| == es && |q| == es && |e| == es && cmp(q, p) == 0
    ensures cmp(e, q) < 0 <==> cmp(e, p) < 0
    ensures cmp(e, q) == 0 <==> cmp(e, p) == 0
    ensures cmp(q, e) == 0 <==> cmp(e, p) == 0
    ensures cmp(q, e) > 0 <==> cmp(e, p) < 0
  {
    assert cmp(p, q) <= 0 && cmp(q, p) <= 0;
    assert cmp(p, q) == 0;
    if cmp(e, q) <= 0 { assert cmp(e, p) <= 0; }
    if cmp(q, e) <= 0 { assert cmp(p, e) <= 0; }
    if cmp(e, p) <= 0 { assert cmp(e, q) <= 0; }
    if cmp(p, e) <= 0 { assert cmp(q, e) <= 0; }
  }

  /** While the right side is scanned the left scan stands at an element
      greater than the pivot, unless the left side is finished. */
  ghost predicate RightScan(s: seq<Element>, cmp: Compare, p: Element, a: nat, i: nat, lp: nat, hp: nat, j: nat,
      l: nat) {
    Partitioned(s, cmp, p, a, i, lp, hp, j, l) && (i < lp ==> cmp(s[i], p) > 0)
  }

  /** The scan from the left: an element equal to the pivot goes to the block
      of equals, a smaller one stays. */
  lemma LeftScan(s: seq<Element>, cmp: Compare, es: nat, p: Element, a: nat, i: nat, lp: nat, hp: nat, j: nat, l: nat,
      c: int)
    requires Partitioned(s, cmp, p, a, i, lp, hp, j, l) && i < lp && TotalPreorder(cmp, es) && Sized(s, es) && |p| == es
    requires c == cmp(s[i], s[lp])
    ensures c == 0 ==> Partitioned(Swapped(s, i, lp - 1), cmp, p, a, i, lp - 1, hp, j, l)
    ensures c == 0 ==> SegmentPermuted(s, Swapped(s, i, lp - 1), a, l)
    ensures c < 0 ==> Partitioned(s, cmp, p, a, i + 1, lp, hp, j, l)
    ensures c > 0 ==> RightScan(s, cmp, p, a, i, lp, hp, j, l)
  {
    PivotCopy(cmp, es, p, s[lp], s[i]);
    if c == 0 {
      LeftEqual(s, cmp, p, a, i, lp, hp, j, l);
    }
  }

  lemma LeftEqual(s: seq<Element>, cmp: Compare, p: Element, a: nat, i: nat, lp: nat, hp: nat, j: nat, l: nat)
    requires Partitioned(s, cmp, p, a, i, lp, hp, j, l) && i < lp && cmp(s[i], p) == 0
    ensures Partitioned(Swapped(s, i, lp - 1), cmp, p, a, i, lp - 1, hp, j, l)
    ensures SegmentPermuted(s, Swapped(s, i, lp - 1), a, l)
  {
    hide SegmentPermuted;
    SwapPermutes(s, i, lp - 1, a, l);
  }

  /** The scan from the right: an equal element goes to the block of equals, a
      larger one stays, and a smaller one changes places with the element the
      left scan stands at or, when the left side is finished, moves the block
      of equals up by one. */
  lemma RightScanStep(s: seq<Element>, cmp: Compare, es: nat, p: Element, a: nat, i: nat, lp: nat, hp: nat, j: nat,
      l: nat, c: int)
    requires RightScan(s, cmp, p, a, i, lp, hp, j, l) && hp < j && TotalPreorder(cmp, es) && Sized(s, es) && |p| == es
    requires c == cmp(s[hp], s[j])
    ensures c == 0 ==> RightScan(Swapped(s, hp + 1, j), cmp, p, a, i, lp, hp + 1, j, l)
    ensures c == 0 ==> SegmentPermuted(s, Swapped(s, hp + 1, j), a, l)
    ensures c < 0 ==> RightScan(s, cmp, p, a, i, lp, hp, j - 1, l)
    ensures c > 0 && i == lp ==> RightScan(Rotated(s, lp, hp + 1, j), cmp, p, a, lp + 1, lp + 1, hp + 1, j, l)
    ensures c > 0 && i == lp ==> SegmentPermuted(s, Rotated(s, lp, hp + 1, j), a, l)
    ensures c > 0 && i < lp ==> Partitioned(Swapped(s, i, j), cmp, p, a, i + 1, lp, hp, j - 1, l)
    ensures c > 0 && i < lp ==> SegmentPermuted(s, Swapped(s, i, j), a, l)
  {
    hide SegmentPermuted, Rotated, Swapped;
    PivotCopy(cmp, es, p, s[hp], s[j]);
    if c == 0 {
      RightEqual(s, cmp, p, a, i, lp, hp, j, l);
    } else if c < 0 {
      assert RightScan(s, cmp, p, a, i, lp, hp, j - 1, l);
    } else if i == lp {
      RightSmall(s, cmp, p, a, lp, hp, j, l);
    } else {
      BothWrong(s, cmp, p, a, i, lp, hp, j, l);
    }
  }

  lemma RightEqual(s: seq<Element>, cmp: Compare, p: Element, a: nat, i: nat, lp: nat, hp: nat, j: nat, l: nat)
    requires RightScan(s, cmp, p, a, i, lp, hp, j, l) && hp < j && cmp(s[j], p) == 0
    ensures RightScan(Swapped(s, hp + 1, j), cmp, p, a, i, lp, hp + 1, j, l)
    ensures SegmentPermuted(s, Swapped(s, hp + 1, j), a, l)
  {
    hide SegmentPermuted;
    SwapPermutes(s, hp + 1, j, a, l);
  }

  lemma RightSmall(s: seq<Element>, cmp: Compare, p: Element, a: nat, lp: nat, hp: nat, j: nat, l: nat)
    requires Partitioned(s, cmp, p, a, lp, lp, hp, j, l) && hp < j && cmp(s[j], p) < 0
    ensures Partitioned(Rotated(s, lp, hp + 1, j), cmp, p, a, lp + 1, lp + 1, hp + 1, j, l)
    ensures SegmentPermuted(s, Rotated(s, lp, hp + 1, j), a, l)
  {
    hide SegmentPermuted;
    TurnPermutes(s, lp, hp + 1, j, a, l);
  }

  lemma BothWrong(s: seq<Element>, cmp: Compare, p: Element, a: nat, i: nat, lp: nat, hp: nat, j: nat, l: nat)
    requires Partitioned(s, cmp, p, a, i, lp, hp, j, l) && i < lp && hp < j
    requires cmp(s[i], p) > 0 && cmp(s[j], p) < 0
    ensures Partitioned(Swapped(s, i, j), cmp, p, a, i + 1, lp, hp, j - 1, l)
    ensures SegmentPermuted(s, Swapped(s, i, j), a, l)
  {
    hide SegmentPermuted;
    SwapPermutes(s, i, j, a, l);
  }

  /** A large element on the left when the right side is finished: the block
      of equals moves down by one. */
  lemma LeftLarge(s: seq<Element>, cmp: Compare, p: Element, a: nat, i: nat, lp: nat, hp: nat, l: nat)
    requires RightScan(s, cmp, p, a, i, lp, hp, hp, l) && i < lp
    ensures Partitioned(Rotated(s, hp, lp - 1, i), cmp, p, a, i, lp - 1, hp - 1, hp - 1, l)
    ensures SegmentPermuted(s, Rotated(s, hp, lp - 1, i), a, l)
  {
    hide SegmentPermuted;
    TurnPermutes(s, hp, lp - 1, i, a, l);
  }

  function Compared(mem: array<byte>, es: nat, n: nat, cmp: Compare, x: nat, y: nat): (c: int)
    reads mem
    requires Address(es, n) <= mem.Length && x < n && y < n
    ensures c == cmp(Elements(mem[..], es, n)[x], Elements(mem[..], es, n)[y])
  {
    Apart(es, x, n);
    Apart(es, y, n);
    cmp(mem[Address(es, x)..Address(es, x) + es], mem[Address(es, y)..Address(es, y) + es])
  }

  /** The scan from the right. It ends at the block of equals, or early when a
      misplaced pair has been exchanged and the left scan must go on. */
  method ScanFromRight(mem: array<byte>, es: nat, n: nat, cmp: Compare, ghost p: Element,
      a: nat, i0: nat, lp0: nat, hp0: nat, j0: nat, l: nat)
    returns (i: nat, lp: nat, hp: nat, j: nat, again: bool)
    requires 0 < es && Address(es, n) <= mem.Length && TotalPreorder(cmp, es)
    requires a <= i0 <= lp0 <= hp0 <= j0 < l <= n && |p| == es
    requires RightScan(Elements(mem[..], es, n), cmp, p, a, i0, lp0, hp0, j0, l)
    modifies mem
    ensures SegmentPermuted(old(Elements(mem[..], es, n)), Elements(mem[..], es, n), a, l)
    ensures a <= i <= lp <= hp <= j < l
    ensures again ==> Partitioned(Elements(mem[..], es, n), cmp, p, a, i, lp, hp, j, l)
    ensures again ==> (lp - i) + (j - hp) < (lp0 - i0) + (j0 - hp0)
    ensures !again ==> j == hp && RightScan(Elements(mem[..], es, n), cmp, p, a, i, lp, hp, j, l)
    ensures !again ==> (lp - i) + (j - hp) <= (lp0 - i0) + (j0 - hp0)
  {
    hide Swapped, Rotated, Elements, SegmentPermuted, Partitioned, RightScan, Sized, TotalPreorder;
    ghost var s0 := Elements(mem[..], es, n);
    i, lp, hp, j := i0, lp0, hp0, j0;
    PermutedSelf(s0, a, l);
    while j > hp
      invariant a <= i <= lp <= hp <= j < l
      invariant RightScan(Elements(mem[..], es, n), cmp, p, a, i, lp, hp, j, l)
      invariant SegmentPermuted(s0, Elements(mem[..], es, n), a, l)
      invariant (lp - i) + (j - hp) <= (lp0 - i0) + (j0 - hp0)
      decreases j - hp
    {
      ghost var s := Elements(mem[..], es, n);
      var c := Compared(mem, es, n, cmp, hp, j);
      ElementsSized(mem[..], es, n);
      RightScanStep(s, cmp, es, p, a, i, lp, hp, j, l, c);
      if c == 0 {
        hp := hp + 1;
        ExchangeElements(mem, es, n, hp, j);
        PermutedTrans(s0, s, Elements(mem[..], es, n), a, l);
      } else if c > 0 {
        if i == lp {
          hp := hp + 1;
          TurnElements(mem, es, n, i, hp, j);
          PermutedTrans(s0, s, Elements(mem[..], es, n), a, l);
          lp := lp + 1;
          i := lp;
        } else {
          ExchangeElements(mem, es, n, i, j);
          PermutedTrans(s0, s, Elements(mem[..], es, n), a, l);
          j := j - 1;
          i := i + 1;
          again := true;
          return;
        }
      } else {
        j := j - 1;
      }
    }
    again := false;
  }

  /** Split [a, l) into elements less than, equal to and greater than a pivot. */
  method Partition(mem: array<byte>, es: nat, n: nat, cmp: Compare, a: nat, l: nat)
    returns (lp: nat, hp: nat, ghost p: Element)
    requires 0 < es && Address(es, n) <= mem.Length && TotalPreorder(cmp, es)
    requires a + 1 < l <= n
    modifies mem
    ensures SegmentPermuted(old(Elements(mem[..], es, n)), Elements(mem[..], es, n), a, l)
    ensures |p| == es && Partitioned(Elements(mem[..], es, n), cmp, p, a, lp, lp, hp, hp, l)
  {
    hide Swapped, Rotated, Elements, SegmentPermuted, Partitioned, RightScan, Sized, TotalPreorder;
    ghost var s0 := Elements(mem[..], es, n);
    var m := a + (l - a) / 2;
    lp, hp := m, m;
    var i: nat, j: nat := a, l - 1;
    p := s0[m];
    ElementsSized(mem[..], es, n);
    StartPartition(s0, cmp, es, a, m, l);
    PermutedSelf(s0, a, l);
    while true
      invariant a <= i <= lp <= hp <= j < l
      invariant Partitioned(Elements(mem[..], es, n), cmp, p, a, i, lp, hp, j, l)
      invariant SegmentPermuted(s0, Elements(mem[..], es, n), a, l)
      decreases (lp - i) + (j - hp)
    {
      ghost var s := Elements(mem[..], es, n);
      if i < lp {
        var c := Compared(mem, es, n, cmp, i, lp);
        ElementsSized(mem[..], es, n);
        LeftScan(s, cmp, es, p, a, i, lp, hp, j, l, c);
        if c == 0 {
          lp := lp - 1;
          ExchangeElements(mem, es, n, i, lp);
          PermutedTrans(s0, s, Elements(mem[..], es, n), a, l);
          continue;
        }
        if c < 0 {
          i := i + 1;
          continue;
        }
      }
      StartRightScan(s, cmp, p, a, i, lp, hp, j, l);
      var again;
      i, lp, hp, j, again := ScanFromRight(mem, es, n, cmp, p, a, i, lp, hp, j, l);
      ghost var t := Elements(mem[..], es, n);
      PermutedTrans(s0, s, t, a, l);
      if again {
        continue;
      }
      if i == lp {
        EndPartition(t, cmp, p, a, lp, hp, l);
        break;
      }
      LeftLarge(t, cmp, p, a, i, lp, hp, l);
      lp := lp - 1;
      TurnElements(mem, es, n, j, lp, i);
      PermutedTrans(s0, t, Elements(mem[..], es, n), a, l);
      hp := hp - 1;
      j := hp;
    }
  }

  lemma PermutedSelf(s: seq<Element>, lo: nat, hi: nat)
    requires lo <= hi <= |s|
    ensures SegmentPermuted(s, s, lo, hi)
  {
  }

  lemma StartRightScan(s: seq<Element>, cmp: Compare, p: Element, a: nat, i: nat, lp: nat, hp: nat, j: nat, l: nat)
    requires Partitioned(s, cmp, p, a, i, lp, hp, j, l)
    requires i == lp || RightScan(s, cmp, p, a, i, lp, hp, j, l)
    ensures RightScan(s, cmp, p, a, i, lp, hp, j, l)
  {
  }

  lemma EndPartition(s: seq<Element>, cmp: Compare, p: Element, a: nat, lp: nat, hp: nat, l: nat)
    requires RightScan(s, cmp, p, a, lp, lp, hp, hp, l)
    ensures Partitioned(s, cmp, p, a, lp, lp, hp, hp, l)
  {
  }

  lemma StartPartition(s: seq<Element>, cmp: Compare, es: nat, a: nat, m: nat, l: nat)
    requires a <= m < l <= |s| && TotalPreorder(cmp, es) && Sized(s, es)
    ensures |s[m]| == es
    ensures Partitioned(s, cmp, s[m], a, a, m, m, l - 1, l)
    ensures SegmentPermuted(s, s, a, l)
  {
    assert cmp(s[m], s[m]) == 0;
  }

  // --------------------------------------------------------------- recursion

  /** Every two elements of [a0, l0) that are not both in [a, l) are in order. */
  ghost predicate SortedAround(s: seq<Element>, cmp: Compare, a0: nat, a: nat, l: nat, l0: nat)
    requires l0 <= |s|
  {
    forall x, y :: a0 <= x < y < l0 && !(a <= x && y < l) ==> cmp(s[x], s[y]) <= 0
  }

  /** Once [a, l) is split, what lies outside either part is in order. */
  lemma SplitOrders(s: seq<Element>, t: seq<Element>, cmp: Compare, es: nat, p: Element,
      a0: nat, a: nat, lp: nat, hp: nat, l: nat, l0: nat)
    requires TotalPreorder(cmp, es) && Sized(t, es) && |p| == es && a0 <= a <= l <= l0 <= |s|
    requires SortedAround(s, cmp, a0, a, l, l0) && SegmentPermuted(s, t, a, l)
    requires Partitioned(t, cmp, p, a, lp, lp, hp, hp, l)
    ensures forall x, y :: a0 <= x < y < l0 && !(a <= x && y < lp) && !(hp < x && y < l) ==> cmp(t[x], t[y]) <= 0
  {
    PermutedKeepsOrder(s, t, cmp, a0, a, l, l0);
    forall x, y | a0 <= x < y < l0 && !(a <= x && y < lp) && !(hp < x && y < l)
      ensures cmp(t[x], t[y]) <= 0
    {
      if a <= x && y < l {
        assert cmp(t[x], p) <= 0 && |t[x]| == es;
        assert cmp(t[y], p) >= 0 && |t[y]| == es;
      }
    }
  }

  lemma PermutedKeepsOrder(s: seq<Element>, t: seq<Element>, cmp: Compare, a0: nat, a: nat, l: nat, l0: nat)
    requires a0 <= a <= l <= l0 <= |s|
    requires SortedAround(s, cmp, a0, a, l, l0) && SegmentPermuted(s, t, a, l)
    ensures SortedAround(t, cmp, a0, a, l, l0)
  {
    forall x, y | a0 <= x < y < l0 && !(a <= x && y < l)
      ensures cmp(t[x], t[y]) <= 0
    {
      if a <= x < l {
        var x' := SegmentMembers(s, t, a, l, x);
        assert cmp(s[x'], s[y]) <= 0;
      } else if a <= y < l {
        var y' := SegmentMembers(s, t, a, l, y);
        assert cmp(s[x], s[y']) <= 0;
      }
    }
  }

  /** Sorting one part leaves only the other to be sorted. */
  lemma PartSorted(t: seq<Element>, u: seq<Element>, cmp: Compare, a0: nat, a: nat, lp: nat, hp: nat, l: nat, l0: nat,
      b: nat, e: nat, a': nat, l': nat)
    requires a0 <= a <= lp <= hp < l <= l0 <= |t|
    requires forall x, y :: a0 <= x < y < l0 && !(a <= x && y < lp) && !(hp < x && y < l) ==> cmp(t[x], t[y]) <= 0
    requires (b, e, a', l') == (hp + 1, l, a, lp) || (b, e, a', l') == (a, lp, hp + 1, l)
    requires SegmentPermuted(t, u, b, e) && SortedAround(u, cmp, b, b, b, e)
    ensures SortedAround(u, cmp, a0, a', l', l0)
  {
    forall x, y | a0 <= x < y < l0 && !(a' <= x && y < l')
      ensures cmp(u[x], u[y]) <= 0
    {
      if b <= x && y < e {
      } else if b <= x < e {
        var x' := SegmentMembers(t, u, b, e, x);
        assert cmp(t[x'], t[y]) <= 0;
      } else if b <= y < e {
        var y' := SegmentMembers(t, u, b, e, y);
        assert cmp(t[x], t[y']) <= 0;
      } else {
        assert cmp(t[x], t[y]) <= 0;
      }
    }
  }

  function Pow2(k: nat): nat {
    if k == 0 then 1 else 2 * Pow2(k - 1)
  }

  /** Sort elements [a0, l0): recurse on the smaller part, loop on the other.
      depth counts the nested calls, this one included. */
  method Qs1(mem: array<byte>, es: nat, n: nat, cmp: Compare, a0: nat, l0: nat) returns (ghost depth: nat)
    requires 0 < es && Address(es, n) <= mem.Length && TotalPreorder(cmp, es)
    requires a0 <= l0 <= n
    modifies mem
    ensures SegmentPermuted(old(Elements(mem[..], es, n)), Elements(mem[..], es, n), a0, l0)
    ensures SortedAround(Elements(mem[..], es, n), cmp, a0, a0, a0, l0)
    ensures depth >= 1 && (l0 == a0 ==> depth == 1) && (l0 > a0 ==> Pow2(depth - 1) <= l0 - a0)
    decreases l0 - a0
  {
    hide Elements, SegmentPermuted, Partitioned, SortedAround, Sized, TotalPreorder;
    ghost var s0 := Elements(mem[..], es, n);
    var a, l := a0, l0;
    depth := 1;
    PermutedSelf(s0, a0, l0);
    NothingSorted(s0, cmp, a0, l0);
    while l - a > 1
      invariant a0 <= a <= l <= l0
      invariant SegmentPermuted(s0, Elements(mem[..], es, n), a0, l0)
      invariant SortedAround(Elements(mem[..], es, n), cmp, a0, a, l, l0)
      invariant depth >= 1 && (l0 <= a0 + 1 ==> depth == 1) && (l0 > a0 ==> Pow2(depth - 1) <= l0 - a0)
      decreases l - a
    {
      ghost var s := Elements(mem[..], es, n);
      var lp, hp, p := Partition(mem, es, n, cmp, a, l);
      ghost var t := Elements(mem[..], es, n);
      PartitionBounds(t, cmp, p, a, lp, hp, l);
      ElementsSized(mem[..], es, n);
      SplitOrders(s, t, cmp, es, p, a0, a, lp, hp, l, l0);
      ghost var d;
      if lp - a >= l - hp {
        d := Qs1(mem, es, n, cmp, hp + 1, l);
        OneRound(s0, s, t, Elements(mem[..], es, n), cmp, a0, a, lp, hp, l, l0, hp + 1, l, a, lp);
        l := lp;
      } else {
        d := Qs1(mem, es, n, cmp, a, lp);
        OneRound(s0, s, t, Elements(mem[..], es, n), cmp, a0, a, lp, hp, l, l0, a, lp, hp + 1, l);
        a := hp + 1;
      }
      depth := if d + 1 > depth then d + 1 else depth;
    }
    SmallSorted(Elements(mem[..], es, n), cmp, a0, a, l, l0);
  }

  lemma OneRound(s0: seq<Element>, s: seq<Element>, t: seq<Element>, u: seq<Element>, cmp: Compare,
      a0: nat, a: nat, lp: nat, hp: nat, l: nat, l0: nat, b: nat, e: nat, a': nat, l': nat)
    requires a0 <= a <= lp <= hp < l <= l0 <= |s0| && |s0| == |s| == |t| == |u|
    requires SegmentPermuted(s0, s, a0, l0) && SegmentPermuted(s, t, a, l)
    requires forall x, y :: a0 <= x < y < l0 && !(a <= x && y < lp) && !(hp < x && y < l) ==> cmp(t[x], t[y]) <= 0
    requires (b, e, a', l') == (hp + 1, l, a, lp) || (b, e, a', l') == (a, lp, hp + 1, l)
    requires SegmentPermuted(t, u, b, e) && SortedAround(u, cmp, b, b, b, e)
    ensures SortedAround(u, cmp, a0, a', l', l0)
    ensures SegmentPermuted(s0, u, a0, l0)
  {
    PartSorted(t, u, cmp, a0, a, lp, hp, l, l0, b, e, a', l');
    hide SegmentPermuted;
    PermutedWider(s, t, a, l, a0, l0);
    PermutedWider(t, u, b, e, a0, l0);
    PermutedTrans(s0, s, t, a0, l0);
    PermutedTrans(s0, t, u, a0, l0);
  }

  lemma PartitionBounds(t: seq<Element>, cmp: Compare, p: Element, a: nat, lp: nat, hp: nat, l: nat)
    requires Partitioned(t, cmp, p, a, lp, lp, hp, hp, l)
    ensures a <= lp <= hp < l <= |t|
  {
  }

  lemma NothingSorted(s: seq<Element>, cmp: Compare, a: nat, l: nat)
    requires a <= l <= |s|
    ensures SortedAround(s, cmp, a, a, l, l)
  {
  }

  lemma SmallSorted(s: seq<Element>, cmp: Compare, a0: nat, a: nat, l: nat, l0: nat)
    requires a0 <= a <= l <= l0 <= |s| && l - a <= 1 && SortedAround(s, cmp, a0, a, l, l0)
    ensures SortedAround(s, cmp, a0, a0, a0, l0)
  {
  }

  /** Sort n elements of es bytes each. The result is sorted and a permutation,
      and calls nest at most floor(log2 n) + 1 deep. */
  method QSort(mem: array<byte>, n: nat, es: nat, cmp: Compare) returns (ghost depth: nat)
    requires 0 < es && Address(es, n) == mem.Length && TotalPreorder(cmp, es)
    modifies mem
    ensures Sorted(Elements(mem[..], es, n), cmp)
    ensures multiset(Elements(mem[..], es, n)) == multiset(old(Elements(mem[..], es, n)))
    ensures depth >= 1 && (n >= 1 ==> Pow2(depth - 1) <= n)
  {
    ghost var s := Elements(mem[..], es, n);
    depth := Qs1(mem, es, n, cmp, 0, n);
    ghost var t := Elements(mem[..], es, n);
    assert s[0..n] == s && t[0..n] == t;
  }
}
