/** The message nodes of all ports: one array of nodes, linked into one free list
    and one queue for every port. */
module PortNodes {
  const NPORTS := 30
  const NIL: int := -1

  type umsg32 = x: int | 0 <= x < 0x1_0000_0000

  /** Entry k of a list, or NIL behind its end. */
  function Item(list: seq<nat>, k: int): int {
    if 0 <= k < |list| then list[k] else NIL
  }

  /** The k-th node of a list points at the next one. */
  predicate Linked(next: seq<int>, list: seq<nat>, k: nat) {
    k < |list| && list[k] < |next| && next[list[k]] == Item(list, k + 1)
  }

  ghost predicate Chain(next: seq<int>, head: int, list: seq<nat>) {
    head == Item(list, 0) && forall k :: 0 <= k < |list| ==> Linked(next, list, k)
  }

  ghost predicate Distinct(list: seq<nat>) {
    forall j, k :: 0 <= j < k < |list| ==> list[j] != list[k]
  }

  function Last(list: seq<nat>): int {
    Item(list, |list| - 1)
  }

  /** Who holds a node: a port, or the free list. */
  const FREE: int := -1

  function Held(free: seq<nat>, queues: seq<seq<nat>>, i: int): seq<nat> {
    if 0 <= i < |queues| then queues[i] else free
  }

  /** All nodes of a list belong to holder i and no two are the same. */
  ghost predicate Owned(own: seq<int>, list: seq<nat>, i: int) {
    Distinct(list) && forall k :: 0 <= k < |list| ==> list[k] < |own| && own[list[k]] == i
  }

  function Sum(queues: seq<seq<nat>>): nat {
    if |queues| == 0 then 0 else Sum(queues[..|queues| - 1]) + |queues[|queues| - 1]|
  }

  lemma {:induction false} SumUpdate(queues: seq<seq<nat>>, i: nat, q: seq<nat>)
    requires i < |queues|
    ensures Sum(queues[i := q]) == Sum(queues) - |queues[i]| + |q|
  {
    var n := |queues| - 1;
    if i < n {
      SumUpdate(queues[..n], i, q);
      assert queues[i := q][..n] == queues[..n][i := q];
    } else {
      assert queues[i := q][..n] == queues[..n];
    }
  }

  /** Every node is in the list of its holder. */
  ghost predicate Covered(own: seq<int>, free: seq<nat>, queues: seq<seq<nat>>) {
    forall n :: 0 <= n < |own| ==> -1 <= own[n] < NPORTS && n in Held(free, queues, own[n])
  }

  /** Each node is in exactly one list, and no node is lost. */
  ghost predicate Parted(own: seq<int>, free: seq<nat>, queues: seq<seq<nat>>) {
    && |queues| == NPORTS && (forall i :: -1 <= i < NPORTS ==> Owned(own, Held(free, queues, i), i))
    && Covered(own, free, queues) && |free| + Sum(queues) == |own|
  }

  /** The free list and the queue of every port that has one are linked. */
  ghost predicate Wired(next: seq<int>, ptfree: int, free: seq<nat>, heads: seq<int>, tails: seq<int>,
      live: seq<bool>, queues: seq<seq<nat>>) {
    && |heads| == |tails| == |live| == |queues| == NPORTS && Chain(next, ptfree, free)
    && (forall i :: 0 <= i < NPORTS && live[i] ==> Chain(next, heads[i], queues[i]) && tails[i] == Last(queues[i]))
    && (forall i :: 0 <= i < NPORTS && !live[i] ==> queues[i] == [])
  }

  ghost predicate NodesOk(next: seq<int>, own: seq<int>, ptfree: int, free: seq<nat>,
                          heads: seq<int>, tails: seq<int>, live: seq<bool>, queues: seq<seq<nat>>) {
    |own| == |next| && Parted(own, free, queues) && Wired(next, ptfree, free, heads, tails, live, queues)
  }

  // ------------------------------------------------------ moving nodes

  /** A list none of whose nodes is changed stays linked. */
  lemma ChainApart(next: seq<int>, next2: seq<int>, own: seq<int>, head: int, list: seq<nat>, i: int)
    requires Chain(next, head, list) && Owned(own, list, i) && |next2| == |next| == |own|
    requires forall n :: 0 <= n < |next| && own[n] == i ==> next2[n] == next[n]
    ensures Chain(next2, head, list)
  {
    forall k | 0 <= k < |list|
      ensures Linked(next2, list, k)
    {
      assert Linked(next, list, k);
    }
  }

  /** Appending a node to a list. */
  lemma Appended(next: seq<int>, head: int, list: seq<nat>, n: nat, i: int, own: seq<int>)
    requires Chain(next, head, list) && Owned(own, list, i) && n < |own| == |next| && own[n] != i
    ensures Last(list) == NIL <==> list == []
    ensures list != [] ==> 0 <= Last(list) < |next|
    ensures var linked := if list == [] then next[n := NIL] else next[n := NIL][Last(list) := n];
            Chain(linked, if list == [] then n else head, list + [n])
    ensures Owned(own[n := i], list + [n], i) && Last(list + [n]) == n
  {
    var linked := if list == [] then next[n := NIL] else next[n := NIL][Last(list) := n];
    forall k | 0 <= k < |list + [n]|
      ensures Linked(linked, list + [n], k)
    {
      if k < |list| { assert Linked(next, list, k); }
    }
  }

  /** Taking the first node off a list. */
  lemma Dropped(next: seq<int>, head: int, list: seq<nat>, i: int, own: seq<int>, j: int)
    requires Chain(next, head, list) && Owned(own, list, i) && list != [] && |own| == |next| && j != i
    ensures head == list[0] && 0 <= head < |next| && next[head] == Item(list[1..], 0)
    ensures Chain(next, next[head], list[1..]) && Owned(own[head := j], list[1..], i)
    ensures list[1..] != [] ==> Last(list[1..]) == Last(list)
    ensures list[1..] == [] <==> head == Last(list)
  {
    assert Linked(next, list, 0);
    var rest := list[1..];
    forall k | 0 <= k < |rest|
      ensures Linked(next, rest, k)
    {
      assert Linked(next, list, k + 1);
    }
  }

  /** Putting a node in front of a list. */
  lemma Pushed(next: seq<int>, head: int, list: seq<nat>, n: nat, i: int, own: seq<int>)
    requires Chain(next, head, list) && Owned(own, list, i) && n < |own| == |next| && own[n] != i
    ensures Chain(next[n := head], n, [n] + list) && Owned(own[n := i], [n] + list, i)
  {
    var more, next2 := [n] + list, next[n := head];
    forall k | 0 <= k < |more|
      ensures Linked(next2, more, k)
    {
      if k > 0 { assert Linked(next, list, k - 1); }
    }
  }

  /** Putting a whole list in front of another. */
  lemma Joined(next: seq<int>, head: int, list: seq<nat>, i: int, head2: int, list2: seq<nat>, j: int, own: seq<int>)
    requires Chain(next, head, list) && Owned(own, list, i) && Chain(next, head2, list2) && Owned(own, list2, j)
    requires i != j && |own| == |next| && list != []
    ensures 0 <= Last(list) < |next| && Chain(next[Last(list) := head2], head, list + list2)
  {
    var all, tail := list + list2, Last(list);
    var next2 := next[tail := head2];
    assert Linked(next, list, |list| - 1);
    forall k | 0 <= k < |all|
      ensures Linked(next2, all, k)
    {
      if k < |list| {
        assert Linked(next, list, k);
      } else {
        assert Linked(next, list2, k - |list|);
      }
    }
  }

  /** What ptsend does to the nodes: the first free node becomes the last of
      queue i. */
  function SendNext(next: seq<int>, n: nat, tail: int): seq<int>
    requires n < |next| && tail < |next|
  {
    if tail < 0 then next[n := NIL] else next[n := NIL][tail := n]
  }

  lemma Deposit(next: seq<int>, own: seq<int>, ptfree: int, free: seq<nat>, heads: seq<int>, tails: seq<int>,
                live: seq<bool>,
                queues: seq<seq<nat>>, i: nat)
    requires NodesOk(next, own, ptfree, free, heads, tails, live, queues) && i < NPORTS && live[i] && free != []
    ensures ptfree == free[0] && ptfree < |next| && NIL <= tails[i] < |next| && (tails[i] == NIL <==> queues[i] == [])
    ensures NodesOk(SendNext(next, ptfree, tails[i]), own[ptfree := i], next[ptfree], free[1..],
                    if queues[i] == [] then heads[i := ptfree] else heads, tails[i := ptfree],
                    live, queues[i := queues[i] + [free[0]]])
  {
    hide Sum, Covered, Distinct, Chain, Owned, Linked, Last;
    assert Owned(own, Held(free, queues, FREE), FREE) && Owned(own, Held(free, queues, i), i);
    FirstOf(next, ptfree, free, FREE, own);
    var n: nat := free[0];
    var own2, free2, queues2 := own[n := i], free[1..], queues[i := queues[i] + [n]];
    Dropped(next, ptfree, free, FREE, own, i);
    Appended(next, heads[i], queues[i], n, i, own);
    LastOwned(own, queues[i], i);
    var next2 := SendNext(next, n, tails[i]);
    var heads2 := if queues[i] == [] then heads[i := n] else heads;
    forall j | -1 <= j < NPORTS
      ensures Owned(own2, Held(free2, queues2, j), j)
      ensures 0 <= j && j != i && live[j] ==> Chain(next2, heads2[j], queues2[j])
    {
      assert Owned(own, Held(free, queues, j), j);
      if j != i && j != FREE {
        OwnedApart(own, queues[j], j, n, i);
        if live[j] { ChainApart(next, next2, own, heads[j], queues[j], j); }
      }
    }
    ChainApart(next, next2, own2, next[n], free2, FREE);
    SumUpdate(queues, i, queues2[i]);
    MovedNode(own, free, queues, n, i, free2, queues2);
  }

  lemma FirstOf(next: seq<int>, head: int, list: seq<nat>, i: int, own: seq<int>)
    requires Chain(next, head, list) && Owned(own, list, i) && |own| == |next|
    ensures head == NIL <==> list == []
    ensures list != [] ==> head == list[0] && 0 <= head < |next| && own[head] == i
  {
    if list != [] { assert Linked(next, list, 0); }
  }

  lemma LastOwned(own: seq<int>, list: seq<nat>, i: int)
    requires Owned(own, list, i)
    ensures Last(list) == NIL <==> list == []
    ensures NIL <= Last(list) < |own| && (list != [] ==> own[Last(list)] == i)
  {
  }

  lemma OwnedApart(own: seq<int>, list: seq<nat>, i: int, n: nat, j: int)
    requires Owned(own, list, i) && n < |own| && own[n] != i
    ensures Owned(own[n := j], list, i)
  {
  }

  /** Moving one node from one list to another leaves every node in its list. */
  lemma MovedNode(own: seq<int>, free: seq<nat>, queues: seq<seq<nat>>, n: nat, j: int, free2: seq<nat>,
      queues2: seq<seq<nat>>)
    requires Covered(own, free, queues) && n < |own| && -1 <= j < NPORTS == |queues2|
    requires n in Held(free2, queues2, j)
    requires forall i :: -1 <= i < NPORTS ==> forall m: nat :: m in Held(free, queues, i) && m != n ==>
               m in Held(free2, queues2, i)
    ensures Covered(own[n := j], free2, queues2)
  {
    var own2 := own[n := j];
    forall m | 0 <= m < |own2|
      ensures -1 <= own2[m] < NPORTS && m in Held(free2, queues2, own2[m])
    {
      if m != n { assert m in Held(free, queues, own[m]); }
    }
  }

  /** What ptrecv does to the nodes: the first node of queue i becomes the first
      free node. */
  lemma Take(next: seq<int>, own: seq<int>, ptfree: int, free: seq<nat>, heads: seq<int>, tails: seq<int>,
             live: seq<bool>,
             queues: seq<seq<nat>>, i: nat)
    requires NodesOk(next, own, ptfree, free, heads, tails, live, queues) && i < NPORTS && live[i] && queues[i] != []
    ensures heads[i] == queues[i][0] && 0 <= heads[i] < |next|
    ensures heads[i] == tails[i] <==> |queues[i]| == 1
    ensures var n := heads[i];
            NodesOk(next[n := ptfree], own[n := FREE], n, [queues[i][0]] + free,
                    heads[i := if n == tails[i] then NIL else next[n]],
                    tails[i := if n == tails[i] then NIL else tails[i]],
                    live, queues[i := queues[i][1..]])
  {
    hide Sum, Covered, Distinct, Chain, Owned, Linked;
    assert Owned(own, Held(free, queues, FREE), FREE) && Owned(own, Held(free, queues, i), i);
    FirstOf(next, heads[i], queues[i], i, own);
    var n: nat := queues[i][0];
    var next2, own2, free2, queues2 := next[n := ptfree], own[n := FREE], [n] + free, queues[i := queues[i][1..]];
    Dropped(next, heads[i], queues[i], i, own, FREE);
    Pushed(next, ptfree, free, n, FREE, own);
    LastOfOne(next, heads[i], queues[i], i, own);
    forall j | -1 <= j < NPORTS
      ensures Owned(own2, Held(free2, queues2, j), j)
      ensures 0 <= j && j != i && live[j] ==> Chain(next2, heads[j], queues2[j])
    {
      assert Owned(own, Held(free, queues, j), j);
      if j != i && j != FREE {
        OwnedApart(own, queues[j], j, n, FREE);
        if live[j] { ChainApart(next, next2, own, heads[j], queues[j], j); }
      }
    }
    ChainApart(next, next2, own2, next[n], queues2[i], i);
    EmptyChain(next2);
    SumUpdate(queues, i, queues2[i]);
    MovedNode(own, free, queues, n, FREE, free2, queues2);
  }

  lemma LastOfOne(next: seq<int>, head: int, list: seq<nat>, i: int, own: seq<int>)
    requires Chain(next, head, list) && Owned(own, list, i) && list != []
    ensures head == Last(list) <==> |list| == 1
    ensures |list| == 1 <==> list[1..] == []
  {
  }

  lemma EmptyChain(next: seq<int>)
    ensures Chain(next, NIL, []) && Last([]) == NIL
  {
  }

  /** The holders after all nodes of port i became free. */
  function Freed(own: seq<int>, i: nat): (r: seq<int>)
    ensures |r| == |own| && forall n :: 0 <= n < |own| ==> r[n] == if own[n] == i then FREE else own[n]
  {
    seq(|own|, n requires 0 <= n < |own| => if own[n] == i then FREE else own[n])
  }

  /** What _ptclear does to the nodes: the whole queue of port i is put in front
      of the free list, and the port has no queue any more. */
  lemma Splice(next: seq<int>, own: seq<int>, ptfree: int, free: seq<nat>, heads: seq<int>, tails: seq<int>,
               live: seq<bool>,
               queues: seq<seq<nat>>, i: nat)
    requires NodesOk(next, own, ptfree, free, heads, tails, live, queues) && i < NPORTS && live[i]
    ensures heads[i] == NIL <==> queues[i] == []
    ensures queues[i] == [] ==> NodesOk(next, own, ptfree, free, heads, tails, live[i := false], queues)
    ensures queues[i] != [] ==>
              0 <= tails[i] < |next| &&
              NodesOk(next[tails[i] := ptfree], Freed(own, i), heads[i], queues[i] + free, heads, tails,
                live[i := false], queues[i := []])
  {
    hide Sum, Covered, Distinct, Chain, Owned, Linked;
    assert Owned(own, Held(free, queues, FREE), FREE) && Owned(own, Held(free, queues, i), i);
    FirstOf(next, heads[i], queues[i], i, own);
    if queues[i] != [] {
      var own2, free2, queues2 := Freed(own, i), queues[i] + free, queues[i := []];
      LastOwned(own, queues[i], i);
      Joined(next, heads[i], queues[i], i, ptfree, free, FREE, own);
      var next2 := next[tails[i] := ptfree];
      forall j | -1 <= j < NPORTS
        ensures Owned(own2, Held(free2, queues2, j), j)
        ensures 0 <= j && j != i && live[j] ==> Chain(next2, heads[j], queues2[j])
      {
        assert Owned(own, Held(free, queues, j), j);
        OwnedFreed(own, free, queues, i, j);
        if j != i && j != FREE && live[j] { ChainApart(next, next2, own, heads[j], queues[j], j); }
      }
      SumUpdate(queues, i, []);
      CoveredFreed(own, free, queues, i);
    }
  }

  lemma OwnedFreed(own: seq<int>, free: seq<nat>, queues: seq<seq<nat>>, i: nat, j: int)
    requires |queues| == NPORTS && i < NPORTS && -1 <= j < NPORTS && Owned(own, Held(free, queues, j), j)
    requires Owned(own, free, FREE) && Owned(own, queues[i], i)
    ensures Owned(Freed(own, i), Held(queues[i] + free, queues[i := []], j), j)
  {
  }

  lemma CoveredFreed(own: seq<int>, free: seq<nat>, queues: seq<seq<nat>>, i: nat)
    requires |queues| == NPORTS && i < NPORTS && Covered(own, free, queues)
    ensures Covered(Freed(own, i), queues[i] + free, queues[i := []])
  {
    forall n | 0 <= n < |own|
      ensures Freed(own, i)[n] < NPORTS && n in Held(queues[i] + free, queues[i := []], Freed(own, i)[n])
    {
      assert n in Held(free, queues, own[n]);
    }
  }

  /** Port i gets an empty queue. */
  lemma OpenQueue(next: seq<int>, own: seq<int>, ptfree: int, free: seq<nat>, heads: seq<int>, tails: seq<int>,
                  live: seq<bool>,
                  queues: seq<seq<nat>>, i: nat)
    requires NodesOk(next, own, ptfree, free, heads, tails, live, queues) && i < NPORTS && !live[i]
    ensures NodesOk(next, own, ptfree, free, heads[i := NIL], tails[i := NIL], live[i := true], queues)
  {
    hide Sum, Covered, Distinct, Owned, Linked;
    EmptyChain(next);
  }

  /** The nodes from k to the end, in order. */
  function Upward(k: nat, n: nat): (list: seq<nat>)
    requires k <= n
    ensures |list| == n - k && forall j :: 0 <= j < n - k ==> list[j] == k + j
  {
    seq(n - k, j requires 0 <= j => k + j)
  }

  lemma {:induction false} SumEmpty(queues: seq<seq<nat>>)
    requires forall i :: 0 <= i < |queues| ==> queues[i] == []
    ensures Sum(queues) == 0
  {
    if |queues| > 0 {
      SumEmpty(queues[..|queues| - 1]);
    }
  }

  /** The nodes as ptinit links them: all free, in order. */
  lemma FreshNodes(next: seq<int>, heads: seq<int>, tails: seq<int>)
    requires |next| > 0 && |heads| == |tails| == NPORTS
    requires forall k :: 0 <= k < |next| ==> next[k] == if k + 1 < |next| then k + 1 else NIL
    ensures NodesOk(next, seq(|next|, _ => FREE), 0, Upward(0, |next|), heads, tails, seq(NPORTS, _ => false),
              seq(NPORTS, _ => []))
  {
    var own, free, queues := seq(|next|, _ => FREE), Upward(0, |next|), seq(NPORTS, _ => []);
    forall k | 0 <= k < |free|
      ensures Linked(next, free, k)
    {
    }
    SumEmpty(queues);
    forall n | 0 <= n < |own|
      ensures n in Held(free, queues, own[n])
    {
      assert free[n] == n;
    }
    assert Owned(own, free, FREE);
  }
}
