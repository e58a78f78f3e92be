/** Queues in the order of arrival: what can happen to one without changing who
    stands in front of whom. */
module Arrivals {
  /** p stands in front of q. */
  predicate Before(list: seq<nat>, p: nat, q: nat) {
    exists i, j :: 0 <= i < j < |list| && list[i] == p && list[j] == q
  }

  /** One more at the end, or some fewer at the front. */
  predicate InTurn(list: seq<nat>, list2: seq<nat>) {
    || list2 == list
    || (|list2| == |list| + 1 && list2[..|list|] == list && list2[|list|] !in list)
    || (|list2| <= |list| && list2 == list[|list| - |list2|..])
  }

  /** The same, or one fewer anywhere. */
  predicate KeepsOrder(list: seq<nat>, list2: seq<nat>) {
    || InTurn(list, list2)
    || (exists i :: 0 <= i < |list| && list2 == OneLess(list, i))
  }

  function OneLess(list: seq<nat>, i: nat): seq<nat>
    requires i < |list|
  {
    list[..i] + list[i + 1..]
  }

  /** Whoever stands behind another afterwards did so before, or has just come. */
  lemma OrderKept(list: seq<nat>, list2: seq<nat>, j: nat, k: nat)
    requires KeepsOrder(list, list2) && j < k < |list2|
    ensures list2[j] in list && (Before(list, list2[j], list2[k]) || list2[k] !in list)
  {
    if list2 == list {
      assert Before(list, list2[j], list2[k]);
    } else if |list2| == |list| + 1 && list2[..|list|] == list {
      assert list2[..|list|][j] == list2[j];
      if k < |list| { assert list2[..|list|][k] == list2[k] && Before(list, list2[j], list2[k]); }
    } else if |list2| <= |list| && list2 == list[|list| - |list2|..] {
      var m := |list| - |list2|;
      assert list2[j] == list[m + j] && list2[k] == list[m + k] && Before(list, list2[j], list2[k]);
    } else {
      var i :| 0 <= i < |list| && list2 == OneLess(list, i);
      var a, b := if j < i then j else j + 1, if k < i then k else k + 1;
      assert list2[j] == list[a] && list2[k] == list[b] && Before(list, list2[j], list2[k]);
    }
  }

  /** Of those that leave a queue at its front, all stood in front of the rest. */
  lemma LeftInFront(list: seq<nat>, n: nat, p: nat, q: nat) returns (a: nat, b: nat)
    requires n <= |list| && p in list && p !in list[n..] && q in list[n..]
    ensures a < b < |list| && list[a] == p && list[b] == q
  {
    a :| 0 <= a < |list| && list[a] == p;
    b :| 0 <= b < |list[n..]| && list[n..][b] == q;
    InRest(list, n, a);
    b := b + n;
  }

  /** Who leaves in turn stood in front of everybody who stays. */
  lemma LeavesFirst(list: seq<nat>, list2: seq<nat>, p: nat, q: nat) returns (a: nat, b: nat)
    requires InTurn(list, list2) && p in list && p !in list2 && q in list && q in list2
    ensures a < b < |list| && list[a] == p && list[b] == q
  {
    StaysInPrefix(list, list2, p);
    a, b := LeftInFront(list, |list| - |list2|, p, q);
  }

  lemma StaysInPrefix(list: seq<nat>, list2: seq<nat>, p: nat)
    requires p in list
    ensures |list| <= |list2| && list2[..|list|] == list ==> p in list2
  {
    var i :| 0 <= i < |list| && list[i] == p;
    if |list| <= |list2| && list2[..|list|] == list { assert list2[..|list|][i] == list2[i]; }
  }

  lemma InRest(list: seq<nat>, n: nat, a: nat)
    requires a < |list| && n <= |list|
    ensures n <= a ==> list[a] in list[n..]
  {
    if n <= a { assert list[n..][a - n] == list[a]; }
  }
}
