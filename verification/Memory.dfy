/** The heap: free blocks linked through memory in address order, and the calls
    that take blocks from the list and put them back. */
module Memory {
  import opened HeapLists

  const NULL: int := 0
  const V_FRAME := 4096
  const NBPG := 4096

  function U32(x: int): int {
    x % WORD
  }

  lemma U32Same(x: int)
    ensures 0 <= x < WORD ==> U32(x) == x
  {
  }

  /** Address of block i, the null pointer behind the last. */
  function AddrAt(list: seq<Blk>, i: int): int {
    if 0 <= i < |list| then list[i].addr else NULL
  }

  /** The two words at a block's address are its header. */
  predicate Node(mnext: seq<int>, mlen: seq<int>, b: Blk, next: int) {
    b.addr < |mnext| && b.addr < |mlen| && mnext[b.addr] == next && mlen[b.addr] == b.len
  }

  ghost predicate Chain(mnext: seq<int>, mlen: seq<int>, head: int, list: seq<Blk>) {
    head == AddrAt(list, 0) && forall i :: 0 <= i < |list| ==> Node(mnext, mlen, list[i], AddrAt(list, i + 1))
  }

  lemma ChainAt(mnext: seq<int>, mlen: seq<int>, head: int, list: seq<Blk>, i: nat)
    requires Chain(mnext, mlen, head, list) && i < |list|
    ensures list[i].addr < |mnext| && list[i].addr < |mlen| && mnext[list[i].addr] == AddrAt(list, i + 1)
    ensures mlen[list[i].addr] == list[i].len
  {
    assert Node(mnext, mlen, list[i], AddrAt(list, i + 1));
  }

  /** The headers of the blocks outside i to j are as they were, but for the one
      that points there. */
  ghost predicate Elsewhere(mnext: seq<int>, mlen: seq<int>, mnext2: seq<int>, mlen2: seq<int>, list: seq<Blk>,
      i: nat, j: nat) {
    && |mnext2| == |mnext| && |mlen2| == |mlen|
    && forall m :: 0 <= m < |list| && (m + 1 < i || j <= m) && list[m].addr < |mnext| && list[m].addr < |mlen| ==>
         mnext2[list[m].addr] == mnext[list[m].addr] && mlen2[list[m].addr] == mlen[list[m].addr]
  }

  /** Which block is at place m after a splice. */
  function Origin(list: seq<Blk>, i: nat, j: nat, mid: seq<Blk>, m: nat): (b: Blk)
    requires i <= j <= |list| && m < i + |mid| + |list| - j
  {
    if m < i then list[m] else if m < i + |mid| then mid[m - i] else list[m - i - |mid| + j]
  }

  lemma SpliceItem(list: seq<Blk>, i: nat, j: nat, mid: seq<Blk>, m: nat)
    requires i <= j <= |list|
    ensures |Splice(list, i, j, mid)| == i + |mid| + |list| - j
    ensures m < i + |mid| + |list| - j ==> Splice(list, i, j, mid)[m] == Origin(list, i, j, mid, m)
    ensures AddrAt(Splice(list, i, j, mid), m) == if m < i + |mid| + |list| - j then Origin(list, i, j, mid, m).addr
              else NULL
  {
  }

  lemma ElsewhereAt(mnext: seq<int>, mlen: seq<int>, mnext2: seq<int>, mlen2: seq<int>, list: seq<Blk>, i: nat,
      j: nat, m: nat)
    requires Elsewhere(mnext, mlen, mnext2, mlen2, list, i, j) && m < |list| && (m + 1 < i || j <= m)
    requires Node(mnext, mlen, list[m], AddrAt(list, m + 1))
    ensures Node(mnext2, mlen2, list[m], AddrAt(list, m + 1))
  {
  }

  /** Relinking around the blocks i to j. */
  lemma Relinked(mnext: seq<int>, mlen: seq<int>, head: int, list: seq<Blk>,
                 mnext2: seq<int>, mlen2: seq<int>, head2: int, i: nat, j: nat, mid: seq<Blk>)
    requires Chain(mnext, mlen, head, list) && i <= j <= |list| && |mid| <= 1
    requires Elsewhere(mnext, mlen, mnext2, mlen2, list, i, j)
    requires mid != [] ==> Node(mnext2, mlen2, mid[0], AddrAt(list, j))
    requires i > 0 ==>
               head2 == head && Node(mnext2, mlen2, list[i - 1], if mid != [] then mid[0].addr else AddrAt(list, j))
    requires i == 0 ==> head2 == if mid != [] then mid[0].addr else AddrAt(list, j)
    ensures Chain(mnext2, mlen2, head2, Splice(list, i, j, mid))
  {
    var list2 := Splice(list, i, j, mid);
    forall m | 0 <= m < |list2|
      ensures Node(mnext2, mlen2, list2[m], AddrAt(list2, m + 1))
    {
      RelinkedAt(mnext, mlen, head, list, mnext2, mlen2, head2, i, j, mid, m);
    }
    SpliceItem(list, i, j, mid, 0);
    hide Splice;
  }

  lemma RelinkedAt(mnext: seq<int>, mlen: seq<int>, head: int, list: seq<Blk>,
                   mnext2: seq<int>, mlen2: seq<int>, head2: int, i: nat, j: nat, mid: seq<Blk>, m: nat)
    requires Chain(mnext, mlen, head, list) && i <= j <= |list| && |mid| <= 1
    requires Elsewhere(mnext, mlen, mnext2, mlen2, list, i, j)
    requires mid != [] ==> Node(mnext2, mlen2, mid[0], AddrAt(list, j))
    requires i > 0 ==> Node(mnext2, mlen2, list[i - 1], if mid != [] then mid[0].addr else AddrAt(list, j))
    requires m < |Splice(list, i, j, mid)|
    ensures Node(mnext2, mlen2, Splice(list, i, j, mid)[m], AddrAt(Splice(list, i, j, mid), m + 1))
  {
    hide Splice, Chain, Elsewhere, Node;
    SpliceItem(list, i, j, mid, m);
    SpliceItem(list, i, j, mid, m + 1);
    if m + 1 < i {
      NodeOf(mnext, mlen, head, list, m);
      ElsewhereAt(mnext, mlen, mnext2, mlen2, list, i, j, m);
    } else if m >= i + |mid| {
      var o := m - i - |mid| + j;
      NodeOf(mnext, mlen, head, list, o);
      ElsewhereAt(mnext, mlen, mnext2, mlen2, list, i, j, o);
    }
  }

  lemma NodeOf(mnext: seq<int>, mlen: seq<int>, head: int, list: seq<Blk>, i: nat)
    requires Chain(mnext, mlen, head, list) && i < |list|
    ensures Node(mnext, mlen, list[i], AddrAt(list, i + 1))
  {
  }

  /** No two blocks have their header at the same address. */
  ghost predicate Distinct(list: seq<Blk>) {
    forall m, o :: 0 <= m < |list| && 0 <= o < |list| && m != o ==> list[m].addr != list[o].addr
  }

  lemma Headers(list: seq<Blk>)
    requires Canonical(list)
    ensures Distinct(list) && forall m :: 0 <= m < |list| ==> list[m].addr > 0
  {
    forall m, o | 0 <= m < |list| && 0 <= o < |list| && m != o
      ensures list[m].addr != list[o].addr
    {
      assert Ok(list[m]) && Ok(list[o]);
    }
    forall m | 0 <= m < |list|
      ensures list[m].addr > 0
    {
      assert Ok(list[m]);
    }
  }

  /** An address inside block k is no other block's. */
  lemma Inside(list: seq<Blk>, k: nat, a: nat)
    requires Canonical(list) && k < |list| && list[k].addr <= a < End(list[k])
    ensures forall m :: 0 <= m < |list| && m != k ==> list[m].addr != a
  {
    forall m | 0 <= m < |list| && m != k
      ensures list[m].addr != a
    {
      assert Ok(list[m]);
    }
  }

  /** A block that is not free has a header of its own. */
  lemma Outside(list: seq<Blk>, b: nat, n: nat)
    requires Canonical(list) && n > 0 && !Rejects(list, b, n)
    ensures forall m :: 0 <= m < |list| ==> list[m].addr != b
  {
    forall m | 0 <= m < |list|
      ensures list[m].addr != b
    {
      assert m > Before(list, b) ==> list[Before(list, b)].addr <= End(list[Before(list, b)]) < list[m].addr;
    }
  }

  /** The counter is the number of free bytes. */
  predicate CountOk(m: int, list: seq<Blk>) {
    m == Total(list)
  }

  /** The counter of free bytes, memlist.mlength. */
  class Counter {
    var mlength: int

    constructor (n: int)
      ensures mlength == n
    {
      mlength := n;
    }
  }

  lemma EightAtLeast(b: Blk)
    requires Ok(b)
    ensures b.len >= 8
  {
  }

  class Heap {
    const base: nat
    const limit: nat
    /** The header words at each address. */
    const mnext: array<int>
    const mlen: array<int>
    const memlist: Counter
    var head: int
    ghost var list: seq<Blk>

    predicate Shape() {
      0 < base <= limit < WORD && mnext != mlen && mnext.Length == mlen.Length == limit + 1
    }

    ghost predicate Linked()
      reads `head, `list, mnext, mlen
    {
      Shape() && Chain(mnext[..], mlen[..], head, list)
    }

    ghost predicate Valid()
      reads `head, `list, mnext, mlen
    {
      Linked() && Canonical(list) && InBounds(list, base, limit)
    }

    /** The counter is the number of free bytes. */
    ghost predicate Counted()
      reads `list, memlist
    {
      CountOk(memlist.mlength, list)
    }

    /** meminit: all of the heap is one free block. */
    constructor (base: nat, limit: nat, mnext: array<int>, mlen: array<int>, memlist: Counter)
      requires 0 < base < limit < WORD && Units(limit - base) && mnext != mlen
      requires mnext.Length == mlen.Length == limit + 1
      modifies mnext, mlen, memlist
      ensures Valid() && Counted() && list == [Blk(base, limit - base)]
      ensures this.base == base && this.limit == limit && this.mnext == mnext && this.mlen == mlen
      ensures this.memlist == memlist
    {
      this.base, this.limit, this.mnext, this.mlen, this.memlist := base, limit, mnext, mlen, memlist;
      head := base;
      list := [Blk(base, limit - base)];
      new;
      memlist.mlength := limit - base;
      mnext[base] := NULL;
      mlen[base] := limit - base;
      assert Node(mnext[..], mlen[..], list[0], NULL);
      OneTotal(list);
    }

    /** A heap whose first header is still to be written. */
    constructor Unwritten(base: nat, limit: nat, mnext: array<int>, mlen: array<int>, memlist: Counter)
      requires 0 < base < limit < WORD && mnext != mlen && mnext.Length == mlen.Length == limit + 1
      ensures Shape() && head == base && this.base == base && this.limit == limit
      ensures this.mnext == mnext && this.mlen == mlen && this.memlist == memlist
    {
      this.base, this.limit, this.mnext, this.mlen, this.memlist := base, limit, mnext, mlen, memlist;
      head := base;
      list := [];
    }

    /** prev->mnext = next, where prev may be the list's head. */
    method SetNext(prev: int, next: int)
      requires prev != NULL ==> 0 <= prev < mnext.Length
      modifies `head, mnext
      ensures prev == NULL ==> head == next && mnext[..] == old(mnext[..])
      ensures prev != NULL ==> head == old(head) && mnext[..] == old(mnext[..])[prev := next]
    {
      if prev == NULL {
        head := next;
      } else {
        mnext[prev] := next;
      }
    }

    lemma At(k: nat)
      requires Valid() && k < |list|
      ensures base <= list[k].addr && End(list[k]) <= limit && Ok(list[k]) && list[k].len >= 8
      ensures mnext[list[k].addr] == AddrAt(list, k + 1) && mlen[list[k].addr] == list[k].len
    {
      hide Units, Chain, Linked;
      ChainNow();
      ChainAt(mnext[..], mlen[..], head, list, k);
      assert Ok(list[k]);
      EightAtLeast(list[k]);
    }

    lemma ChainNow()
      requires Valid()
      ensures Chain(mnext[..], mlen[..], head, list) && Canonical(list) && InBounds(list, base, limit)
      ensures 0 < base <= limit < WORD
      ensures mnext.Length == mlen.Length == limit + 1
    {
    }

    /** Take n bytes from the bottom of block k. */
    method TakeLow(prev: int, curr: int, n: nat, ghost k: nat)
      requires Valid() && k < |list| && curr == list[k].addr && prev == AddrAt(list, k - 1) && n <= list[k].len
      requires Units(n)
      modifies `head, `list, mnext, mlen, memlist
      ensures Valid() && list == TakeBottom(old(list), k, n) && memlist.mlength == U32(old(memlist.mlength) - n)
    {
      hide Canonical, Chain, TakeBottom, Units, InBounds;
      At(k);
      if k > 0 { At(k - 1); }
      Headers(list);
      ghost var mn, ml, hd := mnext[..], mlen[..], head;
      if mlen[curr] == n {
        SetNext(prev, mnext[curr]);
      } else {
        var leftover := curr + n;
        SetNext(prev, leftover);
        mnext[leftover] := mnext[curr];
        mlen[leftover] := mlen[curr] - n;
      }
      memlist.mlength := U32(memlist.mlength - n);
      LowLinks(mn, ml, hd, list, mnext[..], mlen[..], head, k, n);
      LowBounds(list, k, n, base, limit);
      list := TakeBottom(list, k, n);
    }

    /** The search of getmem and vgetmem: first fit, from the bottom of the block. */
    method TakeFirst(n: nat) returns (r: int)
      requires Valid() && Units(n)
      modifies `head, `list, mnext, mlen, memlist
      ensures Valid() && list == GetList(old(list), n)
      ensures r == (if FirstFit(old(list), n) < |old(list)| then old(list)[FirstFit(old(list), n)].addr else SYSERR)
      ensures memlist.mlength == if r == SYSERR then old(memlist.mlength) else U32(old(memlist.mlength) - n)
    {
      hide Canonical, Chain, TakeBottom, Units, InBounds, FirstFit;
      FirstAt();
      if list != [] { At(0); }
      var prev, curr := NULL, head;
      ghost var k := 0;
      while curr != NULL && mlen[curr] < n
        invariant 0 <= k <= |list| && curr == AddrAt(list, k) && prev == AddrAt(list, k - 1)
        invariant curr != NULL ==> k < |list| && 0 <= curr < mlen.Length && mlen[curr] == list[k].len
        invariant forall i :: 0 <= i < k ==> list[i].len < n
        decreases |list| - k
        modifies {}
      {
        At(k);
        prev := curr;
        curr := mnext[curr];
        k := k + 1;
        if k < |list| { At(k); }
      }
      if k < |list| { At(k); }
      assert FirstFit(list, n) == k;
      if curr == NULL {
        return SYSERR;
      }
      TakeLow(prev, curr, n, k);
      r := curr;
    }

    lemma FirstAt()
      requires Valid()
      ensures head == AddrAt(list, 0)
    {
    }

    /** Allocate from the bottom of the first block that fits. */
    method Getmem(nbytes: nat) returns (r: int)
      requires Valid() && nbytes < WORD
      modifies `head, `list, mnext, mlen, memlist
      ensures Valid() && (old(Counted()) ==> Counted())
      ensures nbytes == 0 ==> r == SYSERR && list == old(list)
      ensures nbytes > 0 ==> list == GetList(old(list), RoundMb(nbytes))
      ensures nbytes > 0 && nbytes <= 0xFFFF_FFF8 ==> (r == SYSERR <==> !HasRun(old(list), RoundMb(nbytes)))
      ensures nbytes > 0 && r != SYSERR ==>
                var k := FirstFit(old(list), RoundMb(nbytes));
                  k < |old(list)| && r == old(list)[k].addr && base <= r <= limit
    {
      hide Canonical, Linked, TakeBottom, Units, InBounds, FirstFit, RoundMb, HasRun, CountOk, IsFree, Ok, U32,
        GetList, StkList;
      ChainNow();
      if nbytes == 0 {
        return SYSERR;
      }
      var n := RoundMb(nbytes);
      ghost var list0, k := list, FirstFit(list, n);
      if k < |list| { At(k); }
      CountTaken(memlist.mlength, list, n, base, limit);
      if n > 0 { FitsIffRun(list, n); }
      r := TakeFirst(n);
    }

    /** Allocate from the top of the last block that fits; the result is the highest
        word of the stack. */
    method Getstk(nbytes: nat) returns (r: int)
      requires Valid() && nbytes < WORD
      modifies `head, `list, mnext, mlen, memlist
      ensures Valid() && (old(Counted()) ==> Counted())
      ensures nbytes == 0 ==> r == SYSERR && list == old(list)
      ensures nbytes > 0 ==> list == StkList(old(list), RoundMb(nbytes))
      ensures nbytes > 0 && nbytes <= 0xFFFF_FFF8 ==> (r == SYSERR <==> !HasRun(old(list), RoundMb(nbytes)))
      ensures nbytes > 0 && r != SYSERR ==>
                var k := LastFit(old(list), RoundMb(nbytes)); k < |old(list)| && r == End(old(list)[k]) - 4
    {
      hide Canonical, Linked, TakeTop, Units, InBounds, FirstFit, LastFit, RoundMb, HasRun, CountOk, IsFree, Ok, U32,
        GetList, StkList;
      ChainNow();
      if nbytes == 0 {
        return SYSERR;
      }
      var n := RoundMb(nbytes);
      CountTaken(memlist.mlength, list, n, base, limit);
      if n > 0 { FitsIffRun(list, n); }
      r := TakeLast(n);
    }

    /** The search of getstk: last fit, from the top of the block. */
    method TakeLast(n: nat) returns (r: int)
      requires Valid() && Units(n)
      modifies `head, `list, mnext, mlen, memlist
      ensures Valid() && list == StkList(old(list), n)
      ensures r == (if LastFit(old(list), n) < |old(list)| then End(old(list)[LastFit(old(list), n)]) - 4 else SYSERR)
      ensures r != SYSERR <==> LastFit(old(list), n) < |old(list)|
      ensures memlist.mlength == if r == SYSERR then old(memlist.mlength) else U32(old(memlist.mlength) - n)
    {
      hide Canonical, Chain, TakeTop, Units, InBounds, LastFit, StkList, U32, Ok;
      ghost var f := LastFit(list, n);
      StkIs(list, n);
      ChainNow();
      var fits, fitsprev := FindLast(n);
      if fits == NULL {
        return SYSERR;
      }
      At(f);
      r := TakeHigh(fitsprev, fits, n, f);
    }

    /** The scan of getstk. */
    method FindLast(n: nat) returns (fits: int, fitsprev: int)
      requires Valid()
      ensures fits != NULL ==> fits == AddrAt(list, LastFit(list, n)) && fitsprev == AddrAt(list, LastFit(list, n) - 1)
      ensures fits == NULL <==> LastFit(list, n) == |list|
    {
      hide Canonical, Chain, InBounds, LastFit;
      FirstAt();
      var prev, curr := NULL, head;
      fits, fitsprev := NULL, NULL;
      ghost var k, f := 0, |list|;
      while curr != NULL
        invariant 0 <= k <= |list| && curr == AddrAt(list, k) && prev == AddrAt(list, k - 1)
        invariant fits == NULL ==> f == |list| && forall i :: 0 <= i < k ==> list[i].len < n
        invariant fits != NULL ==>
                  0 <= f < k && fits == list[f].addr && fitsprev == AddrAt(list, f - 1) && list[f].len >= n
        invariant fits != NULL ==> forall i :: f < i < k ==> list[i].len < n
        decreases |list| - k
        modifies {}
      {
        At(k);
        if mlen[curr] >= n {
          fits := curr;
          fitsprev := prev;
          f := k;
        }
        prev := curr;
        curr := mnext[curr];
        k := k + 1;
      }
      if k < |list| { At(k); }
      assert LastFit(list, n) == f;
    }

    /** Take n bytes from the top of block k. */
    method TakeHigh(fitsprev: int, fits: int, n: nat, ghost k: nat) returns (r: int)
      requires Valid() && k < |list| && fits == list[k].addr && fitsprev == AddrAt(list, k - 1) && n <= list[k].len
      requires Units(n)
      modifies `head, `list, mnext, mlen, memlist
      ensures Valid() && list == TakeTop(old(list), k, n) && memlist.mlength == U32(old(memlist.mlength) - n)
      ensures r == End(old(list)[k]) - 4
    {
      hide Canonical, Chain, TakeTop, Units, InBounds;
      At(k);
      if k > 0 { At(k - 1); }
      ghost var mn, ml, hd := mnext[..], mlen[..], head;
      var stack := fits;
      if n == mlen[fits] {
        SetNext(fitsprev, mnext[fits]);
      } else {
        mlen[fits] := mlen[fits] - n;
        stack := fits + mlen[fits];
      }
      memlist.mlength := U32(memlist.mlength - n);
      HighLinks(mn, ml, hd, list, mnext[..], mlen[..], head, k, n);
      HighBounds(list, k, n, base, limit);
      list := TakeTop(list, k, n);
      r := stack + n - 4;
    }

    /** The walk and the linking of freemem and vfreemem. */
    method Insert(block: nat, n: nat) returns (r: int)
      requires Valid() && n > 0 && Units(n) && base <= block <= limit && block + n < WORD
      modifies `head, `list, mnext, mlen, memlist
      ensures Linked() && Canonical(list) && (Valid() <==> r == SYSERR || block + n <= limit)
      ensures r == (if Rejects(old(list), block, n) then SYSERR else OK)
      ensures list == if r == SYSERR then old(list) else FreeList(old(list), block, n)
      ensures memlist.mlength == if r == SYSERR then old(memlist.mlength) else U32(old(memlist.mlength) + n)
    {
      hide Canonical, Chain, FreeList, Units, InBounds, Before;
      FirstAt();
      var prev, next := NULL, head;
      ghost var k := 0;
      while next != NULL && next < block
        invariant 0 <= k <= |list| && next == AddrAt(list, k) && prev == AddrAt(list, k - 1)
        invariant forall i :: 0 <= i < k ==> list[i].addr < block
        decreases |list| - k
        modifies {}
      {
        if k < |list| { At(k); }
        prev := next;
        next := mnext[next];
        k := k + 1;
      }
      if k < |list| { At(k); }
      if k > 0 { At(k - 1); }
      assert Before(list, block) == k;
      var top := if prev == NULL then NULL else U32(prev + mlen[prev]);
      if (prev != NULL && block < top) || (next != NULL && U32(block + n) > next) {
        return SYSERR;
      }
      memlist.mlength := U32(memlist.mlength + n);
      Link(prev, next, top, block, n, k);
      r := OK;
    }

    /** Link a block in, and join it with the neighbours it touches. */
    method Link(prev: int, next: int, top: int, blkaddr: nat, n: nat, ghost k: nat)
      requires Valid() && n > 0 && Units(n) && base <= blkaddr <= limit && !Rejects(list, blkaddr, n)
      requires k == Before(list, blkaddr) && next == AddrAt(list, k) && prev == AddrAt(list, k - 1)
      requires top == if k > 0 then End(list[k - 1]) else NULL
      modifies `head, `list, mnext, mlen
      ensures Linked() && Canonical(list) && (Valid() <==> blkaddr + n <= limit)
      ensures list == FreeList(old(list), blkaddr, n)
    {
      hide Canonical, Chain, FreeList, Units, InBounds, Before, Rejects, Ok;
      if k < |list| { At(k); }
      if k > 0 { At(k - 1); }
      Outside(list, blkaddr, n);
      ghost var mn, ml, hd := mnext[..], mlen[..], head;
      ghost var y := Merged(list, blkaddr, n);
      MergedIs(list, blkaddr, n);
      hide Merged;
      WriteBlock(prev, next, top, blkaddr, n);
      assert ml[y.addr := y.len] == mlen[..];
      FreeLinks(mn, ml, hd, list, mnext[..], mlen[..], head, blkaddr, n);
      FreeBounds(list, blkaddr, n, base, limit);
      list := FreeList(list, blkaddr, n);
    }

    /** The writes of freemem: the block, or the one before it grown, and with the
        one behind it if they touch. */
    method WriteBlock(prev: int, next: int, top: int, blkaddr: nat, n: nat)
      requires mnext != mlen && 0 < blkaddr < mnext.Length == mlen.Length && n > 0
      requires 0 <= prev < mnext.Length && 0 <= next < mnext.Length && prev != blkaddr && next != blkaddr
      requires next != prev || next == NULL
      requires prev != NULL ==> top == prev + mlen[prev]
      requires prev == NULL ==> top == NULL
      requires blkaddr + n != NULL && (prev != NULL && top == blkaddr ==> prev + mlen[prev] + n == blkaddr + n)
      modifies `head, mnext, mlen
      ensures var left, right := top == blkaddr, blkaddr + n == next;
              var addr := if left then prev else blkaddr;
              var len := (if left then old(mlen[prev]) else 0) + n + if right then old(mlen[next]) else 0;
              && 0 <= addr < mnext.Length
              && head == (if prev == NULL then blkaddr else old(head))
              && mnext[..] == (if left then old(mnext[..]) else Pointed(old(mnext[..]), prev, blkaddr))
                              [addr := if right then old(mnext[next]) else if left then old(mnext[prev]) else next]
              && mlen[..] == old(mlen[..])[addr := len]
    {
      var block: int := blkaddr;
      if top == block {
        mlen[prev] := mlen[prev] + n;
        block := prev;
      } else {
        mnext[block] := next;
        mlen[block] := n;
        SetNext(prev, block);
      }
      if block + mlen[block] == next {
        mlen[block] := mlen[block] + mlen[next];
        mnext[block] := mnext[next];
      }
    }

    /** Release a block. It is accepted exactly when it starts in the heap and
        overlaps no free block; the call does not look at the block's end, so that
        the list stays in bounds exactly when the block does. */
    method Freemem(blkaddr: nat, nbytes: nat) returns (r: int)
      requires Valid() && blkaddr < WORD && nbytes < WORD
      requires 0 < nbytes && base <= blkaddr <= limit ==> nbytes <= 0xFFFF_FFF8 && blkaddr + RoundMb(nbytes) < WORD
      modifies `head, `list, mnext, mlen, memlist
      ensures Linked() && Canonical(list) && (Valid() <==> r == SYSERR || blkaddr + RoundMb(nbytes) <= limit)
      ensures old(Counted()) ==> Counted()
      ensures r == OK <==> 0 < nbytes && base <= blkaddr <= limit && Apart(old(list), blkaddr, RoundMb(nbytes))
      ensures r == OK || (r == SYSERR && list == old(list))
      ensures r == OK ==> list == FreeList(old(list), blkaddr, RoundMb(nbytes))
    {
      hide Canonical, Chain, FreeList, Units, InBounds, RoundMb, Apart, Rejects, IsFree, Total;
      ChainNow();
      if nbytes == 0 || blkaddr < base || blkaddr > limit {
        return SYSERR;
      }
      var n := RoundMb(nbytes);
      RejectsIffOverlaps(list, blkaddr, n);
      if !Rejects(list, blkaddr, n) { FreedTotal(list, blkaddr, n, base, limit); }
      r := Insert(blkaddr, n);
    }

    /** freestk, given what getstk returned and the size asked for. */
    method Freestk(p: nat, len: nat) returns (r: int)
      requires Valid() && len < WORD && RoundMb(len) <= p + 4 < WORD
      modifies `head, `list, mnext, mlen, memlist
      ensures var b, n := p + 4 - RoundMb(len), RoundMb(len);
              && Linked() && Canonical(list) && (Valid() <==> r == SYSERR || b + n <= limit)
              && (old(Counted()) ==> Counted())
              && (r == OK <==> 0 < n && base <= b <= limit && Apart(old(list), b, n))
              && (r == OK || (r == SYSERR && list == old(list)))
              && (r == OK ==> list == FreeList(old(list), b, n))
    {
      hide Canonical, Chain, FreeList, Units, InBounds, RoundMb, Apart, Counted;
      RoundTwice(len);
      r := Freemem(p - RoundMb(len) + 4, RoundMb(len));
    }
  }

  lemma {:induction false} PageUnits(pages: nat)
    ensures Units(pages * NBPG)
  {
    if pages > 0 {
      PageUnits(pages - 1);
      UnitsSum((pages - 1) * NBPG, NBPG);
      assert Units(NBPG) && pages * NBPG == (pages - 1) * NBPG + NBPG;
    }
  }

  /** A process's own heap, on the addresses from 16 MB up. Its counter is the
      kernel's. */
  class PrivateHeap {
    const heap: Heap
    /** prvheap.mlength: the size of the heap. */
    const size: nat
    var prhasheap: bool

    /** The free list; before the first request it is all of the heap. */
    ghost function Contents(): seq<Blk>
      reads `prhasheap, heap`list
    {
      if prhasheap then heap.list else [Blk(heap.base, size)]
    }

    ghost predicate Valid()
      reads `prhasheap, heap`head, heap`list, heap.mnext, heap.mlen
    {
      && heap.Shape() && heap.base == V_FRAME * NBPG && heap.limit == heap.base + size && size > 0 && Units(size)
      && if prhasheap then heap.Valid() else heap.head == heap.base
    }

    /** vcreate: the head names a block that is not there yet. */
    constructor (pages: nat, mnext: array<int>, mlen: array<int>, memlist: Counter)
      requires 0 < pages && (V_FRAME + pages) * NBPG < WORD
      requires mnext != mlen && mnext.Length == mlen.Length == (V_FRAME + pages) * NBPG + 1
      ensures Valid() && !prhasheap && Contents() == [Blk(V_FRAME * NBPG, pages * NBPG)] && heap.memlist == memlist
    {
      PageUnits(pages);
      var h := new Heap.Unwritten(V_FRAME * NBPG, (V_FRAME + pages) * NBPG, mnext, mlen, memlist);
      heap, size, prhasheap := h, pages * NBPG, false;
    }

    /** The first request fills in the header of the only block. */
    method FirstNode()
      requires Valid()
      modifies `prhasheap, heap`list, heap.mnext, heap.mlen
      ensures Valid() && prhasheap && heap.Valid() && Contents() == old(Contents()) && heap.list == Contents()
    {
      if !prhasheap {
        prhasheap := true;
        heap.mnext[heap.head] := NULL;
        heap.mlen[heap.head] := size;
        heap.list := [Blk(heap.base, size)];
        assert Node(heap.mnext[..], heap.mlen[..], heap.list[0], NULL);
      }
    }

    /** Allocate from the process's own heap. The first request is no different
        from the later ones. */
    method Vgetmem(nbytes: nat) returns (r: int)
      requires Valid() && nbytes < WORD
      modifies `prhasheap, heap`head, heap`list, heap.mnext, heap.mlen, heap.memlist
      ensures Valid()
      ensures nbytes == 0 ==> r == SYSERR && Contents() == old(Contents())
      ensures nbytes > 0 ==> Contents() == GetList(old(Contents()), RoundMb(nbytes))
      ensures nbytes > 0 && nbytes <= 0xFFFF_FFF8 ==> (r == SYSERR <==> !HasRun(old(Contents()), RoundMb(nbytes)))
      ensures nbytes > 0 && r != SYSERR ==>
                var k := FirstFit(old(Contents()), RoundMb(nbytes));
                  k < |old(Contents())| && r == old(Contents())[k].addr
      ensures heap.memlist.mlength == if r == SYSERR then old(heap.memlist.mlength)
                else U32(old(heap.memlist.mlength) - RoundMb(nbytes))
      ensures CountKept(old(heap.memlist.mlength), heap.memlist.mlength, r == SYSERR || RoundMb(nbytes) == 0)
    {
      hide Canonical, Chain, Units, InBounds, FirstFit, RoundMb, HasRun, GetList, Heap.Valid, U32, CountKept;
      CounterOff(heap.memlist.mlength, RoundMb(nbytes));
      if nbytes == 0 {
        return SYSERR;
      }
      var n := RoundMb(nbytes);
      FirstNode();
      heap.ChainNow();
      if n > 0 { FitsIffRun(heap.list, n); }
      r := heap.TakeFirst(n);
    }

    /** Release into the process's own heap. */
    method Vfreemem(blkaddr: nat, nbytes: nat) returns (r: int)
      requires Valid() && blkaddr < WORD && nbytes < WORD
      requires prhasheap && 0 < nbytes && heap.base <= blkaddr <= heap.limit ==>
                 nbytes <= 0xFFFF_FFF8 && blkaddr + RoundMb(nbytes) < WORD
      modifies heap`head, heap`list, heap.mnext, heap.mlen, heap.memlist
      ensures Valid() <==> r == SYSERR || blkaddr + RoundMb(nbytes) <= heap.limit
      ensures r == OK ==> heap.Linked() && Canonical(heap.list)
      ensures r == OK <==>
                prhasheap && 0 < nbytes && heap.base <= blkaddr <= heap.limit
                  && Apart(old(Contents()), blkaddr, RoundMb(nbytes))
      ensures r == OK || (r == SYSERR && Contents() == old(Contents()))
      ensures r == OK ==> Contents() == FreeList(old(Contents()), blkaddr, RoundMb(nbytes))
      ensures heap.memlist.mlength == if r == SYSERR then old(heap.memlist.mlength)
                else U32(old(heap.memlist.mlength) + RoundMb(nbytes))
      ensures CountKept(old(heap.memlist.mlength), heap.memlist.mlength, r == SYSERR || RoundMb(nbytes) == 0)
    {
      hide Canonical, Chain, Units, InBounds, RoundMb, Apart, Rejects, FreeList, Heap.Valid, U32, CountKept;
      CounterOff(heap.memlist.mlength, RoundMb(nbytes));
      if !prhasheap || nbytes == 0 || blkaddr < V_FRAME * NBPG || blkaddr > V_FRAME * NBPG + size {
        return SYSERR;
      }
      heap.ChainNow();
      RejectsIffOverlaps(heap.list, blkaddr, RoundMb(nbytes));
      r := heap.Insert(blkaddr, RoundMb(nbytes));
    }
  }

  // -------------------------------------------- where the code goes wrong

  /** The block that getmem or vgetmem returns is off the free list exactly when
      rounding its size up does not wrap around. */
  lemma TakenUnlessHuge(list: seq<Blk>, nbytes: nat)
    requires Canonical(list) && 0 < nbytes < WORD && FirstFit(list, RoundMb(nbytes)) < |list|
    ensures IsFree(GetList(list, RoundMb(nbytes)), list[FirstFit(list, RoundMb(nbytes))].addr) <==> nbytes > 0xFFFF_FFF8
  {
    var n := RoundMb(nbytes);
    var k := FirstFit(list, n);
    assert Ok(list[k]);
    if nbytes > 0xFFFF_FFF8 {
      NothingTaken(list, k);
      BlockFree(list, k, list[k].addr);
    } else {
      TakenBottom(list, k, n);
      assert Covers(Blk(list[k].addr, n), list[k].addr);
    }
    hide Canonical, IsFree, TakeBottom, RoundMb, FirstFit;
  }

  /** freemem and vfreemem compare only the block's start with the end of the heap:
      with everything allocated they accept a block at the very end. */
  lemma FreesBeyondTheEnd(lo: nat, hi: nat)
    requires 0 < lo <= hi
    ensures !Rejects([], hi, 8) && !InBounds(FreeList([], hi, 8), lo, hi)
  {
    EmptyCanonical();
    FreeBounds([], hi, 8, lo, hi);
  }

  lemma EmptyCanonical()
    ensures Canonical([])
  {
  }

  /** The counter was right for the kernel's list, whatever that is, and is right
      still exactly if kept. */
  ghost predicate CountKept(m: int, m2: int, kept: bool) {
    forall kernel :: CountOk(m, kernel) && Total(kernel) < WORD ==> (CountOk(m2, kernel) <==> kept)
  }

  /** A call on a private heap that changes the kernel's counter by a multiple of 8
      makes it wrong, unless that multiple is 0. */
  lemma CounterOff(m: int, n: nat)
    requires n < WORD
    ensures CountKept(m, m, true) && CountKept(m, U32(m - n), n == 0) && CountKept(m, U32(m + n), n == 0)
  {
    hide Total;
  }

  lemma RoundTwice(n: nat)
    requires n < WORD
    ensures RoundMb(n) <= 0xFFFF_FFF8 && RoundMb(RoundMb(n)) == RoundMb(n)
  {
  }

  // -------------------------------------------------- the writes, as values

  function Pointed(mnext: seq<int>, prev: int, next: int): seq<int>
    requires prev != NULL ==> 0 <= prev < |mnext|
  {
    if prev == NULL then mnext else mnext[prev := next]
  }

  lemma LowBounds(list: seq<Blk>, k: nat, n: nat, lo: nat, hi: nat)
    requires Canonical(list) && InBounds(list, lo, hi) && k < |list| && n <= list[k].len && Units(n)
    ensures Canonical(TakeBottom(list, k, n)) && InBounds(TakeBottom(list, k, n), lo, hi)
  {
    if n > 0 { TakenBottom(list, k, n); } else { NothingTaken(list, k); }
    hide Canonical, IsFree, Total;
  }

  lemma NothingTaken(list: seq<Blk>, k: nat)
    requires Canonical(list) && k < |list|
    ensures TakeBottom(list, k, 0) == list && TakeTop(list, k, 0) == list
  {
    assert Ok(list[k]);
  }

  lemma HighBounds(list: seq<Blk>, k: nat, n: nat, lo: nat, hi: nat)
    requires Canonical(list) && InBounds(list, lo, hi) && k < |list| && n <= list[k].len && Units(n)
    ensures Canonical(TakeTop(list, k, n)) && InBounds(TakeTop(list, k, n), lo, hi)
  {
    if n > 0 { TakenTop(list, k, n); } else { NothingTaken(list, k); }
    hide Canonical, IsFree, Total;
  }

  lemma FreeBounds(list: seq<Blk>, b: nat, n: nat, lo: nat, hi: nat)
    requires Canonical(list) && InBounds(list, lo, hi) && b > 0 && n > 0 && Units(n) && !Rejects(list, b, n) && lo <= b
    ensures Canonical(FreeList(list, b, n)) && (InBounds(FreeList(list, b, n), lo, hi) <==> b + n <= hi)
  {
    Released(list, b, n);
    MergedIs(list, b, n);
    hide Canonical, IsFree, Total, Merged, Before, Rejects;
    var i := LeftEdge(list, b);
    assert FreeList(list, b, n)[i] == Merged(list, b, n);
  }

  /** The writes of getmem. */
  lemma LowLinks(mn: seq<int>, ml: seq<int>, hd: int, list: seq<Blk>, mn2: seq<int>, ml2: seq<int>, hd2: int, k: nat,
      n: nat)
    requires Chain(mn, ml, hd, list) && Canonical(list) && k < |list| && n <= list[k].len
    requires End(list[k]) <= |mn| == |ml|
    requires AddrAt(list, k - 1) < |mn|
    requires var prev, rest := AddrAt(list, k - 1), AddrAt(list, k + 1);
             var to := if list[k].len == n then rest else list[k].addr + n;
             && hd2 == (if prev == NULL then to else hd)
             && mn2 == (if list[k].len == n then Pointed(mn, prev, to)
                        else Pointed(mn, prev, to)[list[k].addr + n := rest])
             && ml2 == if list[k].len == n then ml else ml[list[k].addr + n := list[k].len - n]
    ensures Chain(mn2, ml2, hd2, TakeBottom(list, k, n))
  {
    hide Canonical, Chain, Splice, Ok;
    Headers(list);
    if list[k].len == n {
      OutLinks(mn, ml, hd, list, k);
    } else {
      Inside(list, k, list[k].addr + n);
      NewLinks(mn, ml, hd, list, k, k + 1, Blk(list[k].addr + n, list[k].len - n));
    }
  }

  /** The writes of getstk. */
  lemma HighLinks(mn: seq<int>, ml: seq<int>, hd: int, list: seq<Blk>, mn2: seq<int>, ml2: seq<int>, hd2: int, k: nat,
      n: nat)
    requires Chain(mn, ml, hd, list) && Canonical(list) && k < |list| && n <= list[k].len
    requires End(list[k]) <= |mn| == |ml|
    requires AddrAt(list, k - 1) < |mn|
    requires var prev, rest := AddrAt(list, k - 1), AddrAt(list, k + 1);
             && hd2 == (if prev == NULL && list[k].len == n then rest else hd)
             && mn2 == (if list[k].len == n then Pointed(mn, prev, rest) else mn)
             && ml2 == if list[k].len == n then ml else ml[list[k].addr := list[k].len - n]
    ensures Chain(mn2, ml2, hd2, TakeTop(list, k, n))
  {
    hide Canonical, Chain, Splice, Ok;
    Headers(list);
    if list[k].len == n {
      OutLinks(mn, ml, hd, list, k);
    } else {
      ChainAt(mn, ml, hd, list, k);
      assert mn[list[k].addr := AddrAt(list, k + 1)] == mn;
      GrownLinks(mn, ml, hd, list, k, k + 1, Blk(list[k].addr, list[k].len - n));
    }
  }

  /** The writes of freemem. */
  lemma FreeLinks(mn: seq<int>, ml: seq<int>, hd: int, list: seq<Blk>, mn2: seq<int>, ml2: seq<int>, hd2: int, b: nat,
      n: nat)
    requires Chain(mn, ml, hd, list) && Canonical(list) && b > 0 && n > 0 && Units(n) && !Rejects(list, b, n)
    requires b < |mn| == |ml|
    requires Before(list, b) > 0 ==> list[Before(list, b) - 1].addr < |mn|
    requires var k, y, j := Before(list, b), Merged(list, b, n), RightEdge(list, b, n);
             && hd2 == (if k == 0 then b else hd)
             && y.addr < |mn|
             && mn2 == (if JoinsLeft(list, b) then mn else Pointed(mn, AddrAt(list, k - 1), b))
                       [y.addr := AddrAt(list, j)]
             && ml2 == ml[y.addr := y.len]
    ensures Chain(mn2, ml2, hd2, FreeList(list, b, n))
  {
    hide Canonical, Chain, Splice, Before, Merged, Rejects;
    var k, j, y := Before(list, b), RightEdge(list, b, n), Merged(list, b, n);
    MergedIs(list, b, n);
    Headers(list);
    if JoinsLeft(list, b) {
      GrownLinks(mn, ml, hd, list, k - 1, j, y);
    } else {
      Outside(list, b, n);
      NewLinks(mn, ml, hd, list, k, j, y);
    }
  }

  /** Block i grows over the blocks up to j, or shrinks where it is. */
  lemma GrownLinks(mn: seq<int>, ml: seq<int>, hd: int, list: seq<Blk>, i: nat, j: nat, y: Blk)
    requires Chain(mn, ml, hd, list) && Distinct(list) && i < j <= |list| && y.addr == list[i].addr
    requires y.addr < |mn| == |ml|
    ensures Chain(mn[y.addr := AddrAt(list, j)], ml[y.addr := y.len], hd, Splice(list, i, j, [y]))
  {
    HeadIs(mn, ml, hd, list);
    if i > 0 { ChainAt(mn, ml, hd, list, i - 1); }
    GrownElsewhere(mn, ml, list, i, j, y);
    hide Chain, Splice, Elsewhere;
    Relinked(mn, ml, hd, list, mn[y.addr := AddrAt(list, j)], ml[y.addr := y.len], hd, i, j, [y]);
  }

  lemma GrownElsewhere(mn: seq<int>, ml: seq<int>, list: seq<Blk>, i: nat, j: nat, y: Blk)
    requires Distinct(list) && i < j <= |list| && y.addr == list[i].addr && y.addr < |mn| == |ml|
    ensures Elsewhere(mn, ml, mn[y.addr := AddrAt(list, j)], ml[y.addr := y.len], list, i, j)
  {
  }

  /** A new block, in the place of the blocks k to j. */
  lemma NewLinks(mn: seq<int>, ml: seq<int>, hd: int, list: seq<Blk>, k: nat, j: nat, y: Blk)
    requires Chain(mn, ml, hd, list) && Distinct(list) && k <= j <= |list| && y.addr < |mn| == |ml|
    requires forall m :: 0 <= m < |list| ==> list[m].addr > 0 && (m < k || j <= m ==> list[m].addr != y.addr)
    requires AddrAt(list, k - 1) < |mn|
    ensures Chain(Pointed(mn, AddrAt(list, k - 1), y.addr)[y.addr := AddrAt(list, j)], ml[y.addr := y.len],
                  if AddrAt(list, k - 1) == NULL then y.addr else hd, Splice(list, k, j, [y]))
  {
    if k > 0 { ChainAt(mn, ml, hd, list, k - 1); }
    NewElsewhere(mn, ml, list, k, j, y);
    hide Chain, Splice, Elsewhere;
    Relinked(mn, ml, hd, list, Pointed(mn, AddrAt(list, k - 1), y.addr)[y.addr := AddrAt(list, j)], ml[y.addr := y.len],
             if AddrAt(list, k - 1) == NULL then y.addr else hd, k, j, [y]);
  }

  lemma NewElsewhere(mn: seq<int>, ml: seq<int>, list: seq<Blk>, k: nat, j: nat, y: Blk)
    requires Distinct(list) && k <= j <= |list| && y.addr < |mn| == |ml| && AddrAt(list, k - 1) < |mn|
    requires forall m :: 0 <= m < |list| ==> m < k || j <= m ==> list[m].addr != y.addr
    ensures Elsewhere(mn, ml, Pointed(mn, AddrAt(list, k - 1), y.addr)[y.addr := AddrAt(list, j)],
              ml[y.addr := y.len], list, k, j)
  {
  }

  /** Block k goes. */
  lemma OutLinks(mn: seq<int>, ml: seq<int>, hd: int, list: seq<Blk>, k: nat)
    requires Chain(mn, ml, hd, list) && Distinct(list) && k < |list| && |mn| == |ml| && AddrAt(list, k - 1) < |mn|
    requires forall m :: 0 <= m < |list| ==> list[m].addr > 0
    ensures Chain(Pointed(mn, AddrAt(list, k - 1), AddrAt(list, k + 1)), ml,
                  if AddrAt(list, k - 1) == NULL then AddrAt(list, k + 1) else hd, Splice(list, k, k + 1, []))
  {
    if k > 0 { ChainAt(mn, ml, hd, list, k - 1); }
    OutElsewhere(mn, ml, list, k);
    hide Chain, Splice, Elsewhere;
    Relinked(mn, ml, hd, list, Pointed(mn, AddrAt(list, k - 1), AddrAt(list, k + 1)), ml,
             if AddrAt(list, k - 1) == NULL then AddrAt(list, k + 1) else hd, k, k + 1, []);
  }

  lemma OutElsewhere(mn: seq<int>, ml: seq<int>, list: seq<Blk>, k: nat)
    requires Distinct(list) && k < |list| && |mn| == |ml| && AddrAt(list, k - 1) < |mn|
    ensures Elsewhere(mn, ml, Pointed(mn, AddrAt(list, k - 1), AddrAt(list, k + 1)), ml, list, k, k + 1)
  {
  }

  lemma HeadIs(mn: seq<int>, ml: seq<int>, hd: int, list: seq<Blk>)
    requires Chain(mn, ml, hd, list)
    ensures hd == AddrAt(list, 0)
  {
  }

  // ------------------------------------------------------------ the counter

  /** Free blocks fit between the bounds one after the other. */
  lemma {:induction false} TotalBound(list: seq<Blk>, lo: nat, hi: nat)
    requires Canonical(list) && InBounds(list, lo, hi) && lo <= hi
    ensures Total(list) <= hi - lo
    decreases |list|
  {
    if list != [] {
      assert Ok(list[0]);
      assert forall i :: 0 <= i < |list[1..]| ==> list[1..][i] == list[i + 1] && End(list[0]) < list[i + 1].addr;
      TotalBound(list[1..], End(list[0]), hi);
    }
  }

  /** Releasing a block keeps the counter from wrapping around. */
  lemma FreedTotal(list: seq<Blk>, b: nat, n: nat, lo: nat, hi: nat)
    requires Canonical(list) && InBounds(list, lo, hi) && 0 < n && Units(n) && !Rejects(list, b, n)
    requires 0 < lo <= b <= hi < WORD && b + n < WORD
    ensures Total(FreeList(list, b, n)) == U32(Total(list) + n)
  {
    hide Canonical, Rejects, FreeList, Units, Total, IsFree, U32;
    var top := if b + n <= hi then hi else b + n;
    Released(list, b, n);
    FreeBounds(list, b, n, lo, top);
    TotalBound(FreeList(list, b, n), lo, top);
    U32Same(Total(list) + n);
  }

  /** Taking n bytes keeps the counter right; it does not wrap around. */
  lemma CountTaken(m: int, list: seq<Blk>, n: nat, lo: nat, hi: nat)
    requires Canonical(list) && InBounds(list, lo, hi) && Units(n) && lo <= hi < WORD
    ensures CountOk(m, list) ==> CountOk(if FirstFit(list, n) < |list| then U32(m - n) else m, GetList(list, n))
    ensures CountOk(m, list) ==> CountOk(if LastFit(list, n) < |list| then U32(m - n) else m, StkList(list, n))
  {
    hide Canonical, InBounds, Units, FirstFit, LastFit, GetList, StkList, Total, U32;
    GetTotal(list, n);
    TotalBound(list, lo, hi);
    U32Same(Total(list) - n);
  }

  lemma StkIs(list: seq<Blk>, n: nat)
    ensures LastFit(list, n) < |list| ==>
              list[LastFit(list, n)].len >= n && StkList(list, n) == TakeTop(list, LastFit(list, n), n)
    ensures LastFit(list, n) >= |list| ==> StkList(list, n) == list
  {
  }

  lemma GetTotal(list: seq<Blk>, n: nat)
    requires Canonical(list) && Units(n)
    ensures FirstFit(list, n) < |list| ==> n <= Total(list) && Total(GetList(list, n)) == Total(list) - n
    ensures LastFit(list, n) < |list| ==> n <= Total(list) && Total(StkList(list, n)) == Total(list) - n
    ensures FirstFit(list, n) >= |list| ==> GetList(list, n) == list
    ensures LastFit(list, n) >= |list| ==> StkList(list, n) == list
  {
    hide Canonical, TakeBottom, TakeTop, FirstFit, LastFit, Total, IsFree;
    var k, f := FirstFit(list, n), LastFit(list, n);
    if k < |list| { if n > 0 { TakenBottom(list, k, n); } else { NothingTaken(list, k); } }
    if f < |list| { if n > 0 { TakenTop(list, f, n); } else { NothingTaken(list, f); } }
  }
}
