/** The heap's free list as a value: what allocation and release make of it, the
    bytes it says are free, and the one form a set of free bytes can take. */
module HeapLists {
  const WORD := 0x1_0000_0000
  const SYSERR: int := -1
  const OK: int := 1

  /** A free block: its address and its size in bytes. */
  datatype Blk = Blk(addr: nat, len: nat)

  function End(b: Blk): nat {
    b.addr + b.len
  }

  /** Whole 8-byte units. */
  predicate Units(n: nat) {
    n % 8 == 0
  }

  lemma UnitsSum(m: nat, n: nat)
    ensures Units(m) && Units(n) ==> Units(m + n)
    ensures Units(m) && Units(n) && n <= m ==> Units(m - n)
  {
    if Units(m) && Units(n) {
      var a, b := m / 8, n / 8;
      assert m == 8 * a && n == 8 * b;
      assert m + n == 8 * (a + b) && m - n == 8 * (a - b);
    }
  }

  /** roundmb in 32-bit arithmetic. */
  function RoundMb(n: nat): (r: nat)
    requires n < WORD
    ensures Units(r)
    ensures n <= 0xFFFF_FFF8 ==> n <= r < n + 8
    ensures n > 0xFFFF_FFF8 ==> r == 0
  {
    (n + 7) % WORD / 8 * 8
  }

  predicate Ok(b: Blk) {
    b.addr > 0 && b.len > 0 && Units(b.len)
  }

  /** Every block of a ends before every block of b, with a gap. */
  ghost predicate Below(a: seq<Blk>, b: seq<Blk>) {
    forall i, j :: 0 <= i < |a| && 0 <= j < |b| ==> End(a[i]) < b[j].addr
  }

  /** Sorted by address, whole 8-byte units, disjoint and fully coalesced. */
  ghost predicate Canonical(list: seq<Blk>) {
    && (forall i :: 0 <= i < |list| ==> Ok(list[i]))
    && (forall i, j :: 0 <= i < j < |list| ==> End(list[i]) < list[j].addr)
  }

  predicate InBounds(list: seq<Blk>, lo: nat, hi: nat) {
    forall i :: 0 <= i < |list| ==> lo <= list[i].addr && End(list[i]) <= hi
  }

  predicate Covers(b: Blk, x: nat) {
    b.addr <= x < End(b)
  }

  ghost predicate IsFree(list: seq<Blk>, x: nat) {
    exists i :: 0 <= i < |list| && Covers(list[i], x)
  }

  function Total(list: seq<Blk>): nat {
    if list == [] then 0 else list[0].len + Total(list[1..])
  }

  // ----------------------------------------------------- putting together

  lemma Join(a: seq<Blk>, b: seq<Blk>)
    ensures Canonical(a + b) <==> Canonical(a) && Canonical(b) && Below(a, b)
  {
    var s := a + b;
    if Canonical(s) {
      assert forall i :: 0 <= i < |a| ==> a[i] == s[i];
      assert forall j :: 0 <= j < |b| ==> b[j] == s[|a| + j];
    }
  }

  lemma BelowJoin(a: seq<Blk>, b: seq<Blk>, c: seq<Blk>)
    ensures Below(a, b + c) <==> Below(a, b) && Below(a, c)
    ensures Below(a + b, c) <==> Below(a, c) && Below(b, c)
  {
    var s, t := b + c, a + b;
    assert forall i :: 0 <= i < |b| ==> b[i] == s[i];
    assert forall i :: 0 <= i < |c| ==> c[i] == s[|b| + i];
    assert forall i :: 0 <= i < |a| ==> a[i] == t[i];
    assert forall i :: 0 <= i < |b| ==> b[i] == t[|a| + i];
  }

  lemma FreeJoin(a: seq<Blk>, b: seq<Blk>, x: nat)
    ensures IsFree(a + b, x) <==> IsFree(a, x) || IsFree(b, x)
  {
    if IsFree(a, x) {
      var i :| 0 <= i < |a| && Covers(a[i], x);
      assert (a + b)[i] == a[i];
    }
    if IsFree(b, x) {
      var i :| 0 <= i < |b| && Covers(b[i], x);
      assert (a + b)[|a| + i] == b[i];
    }
  }

  lemma FreeOne(b: Blk, x: nat)
    ensures IsFree([b], x) <==> Covers(b, x)
  {
    assert [b][0] == b;
  }

  lemma {:induction false} TotalJoin(a: seq<Blk>, b: seq<Blk>)
    ensures Total(a + b) == Total(a) + Total(b)
  {
    if a == [] {
      assert a + b == b;
    } else {
      TotalJoin(a[1..], b);
      assert (a + b)[1..] == a[1..] + b;
    }
  }

  /** A free list around its blocks i to j. */
  function Splice(list: seq<Blk>, i: nat, j: nat, mid: seq<Blk>): seq<Blk>
    requires i <= j <= |list|
  {
    list[..i] + mid + list[j..]
  }

  lemma SpliceWhole(list: seq<Blk>, i: nat, j: nat)
    requires i <= j <= |list|
    ensures Splice(list, i, j, list[i..j]) == list
  {
  }

  lemma SpliceMeans(list: seq<Blk>, i: nat, j: nat, mid: seq<Blk>)
    requires i <= j <= |list|
    ensures Canonical(Splice(list, i, j, mid)) <==>
            && Canonical(list[..i]) && Canonical(mid) && Canonical(list[j..])
            && Below(list[..i], mid) && Below(list[..i], list[j..]) && Below(mid, list[j..])
    ensures forall x :: IsFree(Splice(list, i, j, mid), x) <==>
              IsFree(list[..i], x) || IsFree(mid, x) || IsFree(list[j..], x)
    ensures Total(Splice(list, i, j, mid)) == Total(list[..i]) + Total(mid) + Total(list[j..])
  {
    hide Canonical, Below, IsFree, Total;
    var pre, post := list[..i], list[j..];
    Join(pre + mid, post);
    Join(pre, mid);
    BelowJoin(pre, mid, post);
    TotalJoin(pre + mid, post);
    TotalJoin(pre, mid);
    forall x
      ensures IsFree(Splice(list, i, j, mid), x) <==> IsFree(pre, x) || IsFree(mid, x) || IsFree(post, x)
    {
      FreeJoin(pre + mid, post, x);
      FreeJoin(pre, mid, x);
    }
  }

  /** Replacing the blocks i to j of a canonical list by others that lie within the
      same bounds keeps it canonical. */
  lemma SpliceKeeps(list: seq<Blk>, i: nat, j: nat, mid: seq<Blk>)
    requires Canonical(list) && i <= j <= |list| && Canonical(mid) && Below(list[..i], mid) && Below(mid, list[j..])
    ensures Canonical(Splice(list, i, j, mid))
  {
    hide Splice;
    Cut(list, i, j);
    SpliceMeans(list, i, j, mid);
  }

  lemma Cut(list: seq<Blk>, i: nat, j: nat)
    requires Canonical(list) && i <= j <= |list|
    ensures Canonical(list[..i]) && Canonical(list[j..]) && Below(list[..i], list[j..])
  {
  }

  /** A byte of list[..k] lies below, a byte of list[k..] not below list[k]. */
  lemma Sides(list: seq<Blk>, k: nat, x: nat)
    requires Canonical(list) && k < |list|
    ensures IsFree(list[..k], x) ==> x < list[k].addr
    ensures IsFree(list[k + 1..], x) ==> x > End(list[k])
  {
    if IsFree(list[..k], x) {
      var i :| 0 <= i < |list[..k]| && Covers(list[..k][i], x);
      assert list[..k][i] == list[i];
    }
    if IsFree(list[k + 1..], x) {
      var i :| 0 <= i < |list[k + 1..]| && Covers(list[k + 1..][i], x);
      assert list[k + 1..][i] == list[k + 1 + i];
    }
  }

  // -------------------------------------------------------- getmem, getstk

  /** The first block that is big enough. */
  function FirstFit(list: seq<Blk>, n: nat): (k: nat)
    ensures k <= |list| && (k < |list| ==> list[k].len >= n) && forall i :: 0 <= i < k ==> list[i].len < n
  {
    if list == [] || list[0].len >= n then 0 else
      var k := FirstFit(list[1..], n);
      assert forall i :: 0 < i < 1 + k ==> list[i] == list[1..][i - 1];
      1 + k
  }

  /** The last block that is big enough. */
  function LastFit(list: seq<Blk>, n: nat): (k: nat)
    ensures k <= |list| && (k < |list| ==> list[k].len >= n && forall i :: k < i < |list| ==> list[i].len < n)
    ensures k == |list| ==> forall i :: 0 <= i < |list| ==> list[i].len < n
  {
    if list == [] then 0
    else if list[|list| - 1].len >= n then |list| - 1
    else
      var k := LastFit(list[..|list| - 1], n);
      if k == |list| - 1 then |list| else k
  }

  /** The free list after n bytes are taken from the bottom of block k. */
  function TakeBottom(list: seq<Blk>, k: nat, n: nat): seq<Blk>
    requires k < |list| && n <= list[k].len
  {
    Splice(list, k, k + 1, Low(list[k], n))
  }

  /** The free list after n bytes are taken from the top of block k. */
  function TakeTop(list: seq<Blk>, k: nat, n: nat): seq<Blk>
    requires k < |list| && n <= list[k].len
  {
    Splice(list, k, k + 1, High(list[k], n))
  }

  function GetList(list: seq<Blk>, n: nat): seq<Blk> {
    var k := FirstFit(list, n);
    if k < |list| then TakeBottom(list, k, n) else list
  }

  function StkList(list: seq<Blk>, n: nat): seq<Blk> {
    var k := LastFit(list, n);
    if k < |list| then TakeTop(list, k, n) else list
  }

  /** Part of block k goes, the rest mid of it stays. */
  ghost predicate PartOf(list: seq<Blk>, k: nat, mid: seq<Blk>) {
    && k < |list| && |mid| <= 1
    && (mid != [] ==> Ok(mid[0]) && list[k].addr <= mid[0].addr && End(mid[0]) <= End(list[k]))
  }

  lemma PartKeeps(list: seq<Blk>, k: nat, mid: seq<Blk>)
    requires Canonical(list) && PartOf(list, k, mid)
    ensures Canonical(Splice(list, k, k + 1, mid))
    ensures Total(Splice(list, k, k + 1, mid)) == Total(list) - list[k].len + Total(mid)
  {
    SpliceKeeps(list, k, k + 1, mid);
    hide Canonical, IsFree, Total, Below, Splice;
    SpliceMeans(list, k, k + 1, mid);
    SpliceWhole(list, k, k + 1);
    assert list[k..k + 1] == [list[k]];
    SpliceMeans(list, k, k + 1, [list[k]]);
    OneTotal([list[k]]);
  }

  lemma PartFree(list: seq<Blk>, k: nat, mid: seq<Blk>, x: nat)
    requires Canonical(list) && PartOf(list, k, mid)
    ensures IsFree(Splice(list, k, k + 1, mid), x) <==> (IsFree(list, x) && !Covers(list[k], x)) || IsFree(mid, x)
    ensures Covers(list[k], x) ==> IsFree(list, x)
  {
    hide Canonical, IsFree, Total, Below, Splice;
    SpliceMeans(list, k, k + 1, mid);
    SpliceWhole(list, k, k + 1);
    assert list[k..k + 1] == [list[k]];
    SpliceMeans(list, k, k + 1, [list[k]]);
    FreeOne(list[k], x);
    Sides(list, k, x);
    BlockFree(list, k, x);
  }

  function Low(b: Blk, n: nat): seq<Blk>
    requires n <= b.len
  {
    if b.len == n then [] else [Blk(b.addr + n, b.len - n)]
  }

  function High(b: Blk, n: nat): seq<Blk>
    requires n <= b.len
  {
    if b.len == n then [] else [Blk(b.addr, b.len - n)]
  }

  lemma LowMeans(b: Blk, n: nat, x: nat)
    requires Ok(b) && 0 < n <= b.len && Units(n)
    ensures |Low(b, n)| <= 1 && Total(Low(b, n)) == b.len - n
    ensures Low(b, n) != [] ==> Ok(Low(b, n)[0]) && b.addr <= Low(b, n)[0].addr && End(Low(b, n)[0]) == End(b)
    ensures IsFree(Low(b, n), x) <==> b.addr + n <= x < End(b)
  {
    UnitsSum(b.len, n);
    OneTotal(Low(b, n));
    hide Units, IsFree, Total;
    if b.len != n { FreeOne(Low(b, n)[0], x); } else { NoneFree(x); }
  }

  lemma HighMeans(b: Blk, n: nat, x: nat)
    requires Ok(b) && 0 < n <= b.len && Units(n)
    ensures |High(b, n)| <= 1 && Total(High(b, n)) == b.len - n
    ensures High(b, n) != [] ==> Ok(High(b, n)[0]) && b.addr == High(b, n)[0].addr && End(High(b, n)[0]) <= End(b)
    ensures IsFree(High(b, n), x) <==> b.addr <= x < End(b) - n
  {
    UnitsSum(b.len, n);
    OneTotal(High(b, n));
    hide Units, IsFree, Total;
    if b.len != n { FreeOne(High(b, n)[0], x); } else { NoneFree(x); }
  }

  /** Taking n bytes off the bottom of a block: the rest stays canonical, exactly
      those bytes are no longer free, and the sizes add up. */
  lemma TakenBottom(list: seq<Blk>, k: nat, n: nat)
    requires Canonical(list) && k < |list| && 0 < n <= list[k].len && Units(n)
    ensures Canonical(TakeBottom(list, k, n)) && Total(TakeBottom(list, k, n)) == Total(list) - n && list[k].addr > 0
    ensures forall x :: IsFree(TakeBottom(list, k, n), x) <==> IsFree(list, x) && !Covers(Blk(list[k].addr, n), x)
    ensures forall x :: Covers(Blk(list[k].addr, n), x) ==> IsFree(list, x)
  {
    assert Ok(list[k]);
    hide Splice, Canonical, IsFree, Total, Units, Low;
    LowMeans(list[k], n, 0);
    PartKeeps(list, k, Low(list[k], n));
    forall x: nat
      ensures IsFree(TakeBottom(list, k, n), x) <==> IsFree(list, x) && !Covers(Blk(list[k].addr, n), x)
      ensures Covers(Blk(list[k].addr, n), x) ==> IsFree(list, x)
    {
      LowMeans(list[k], n, x);
      PartFree(list, k, Low(list[k], n), x);
    }
  }

  /** The same at the top. */
  lemma TakenTop(list: seq<Blk>, k: nat, n: nat)
    requires Canonical(list) && k < |list| && 0 < n <= list[k].len && Units(n)
    ensures Canonical(TakeTop(list, k, n)) && Total(TakeTop(list, k, n)) == Total(list) - n && End(list[k]) - n > 0
    ensures forall x :: IsFree(TakeTop(list, k, n), x) <==> IsFree(list, x) && !Covers(Blk(End(list[k]) - n, n), x)
    ensures forall x :: Covers(Blk(End(list[k]) - n, n), x) ==> IsFree(list, x)
  {
    assert Ok(list[k]);
    hide Splice, Canonical, IsFree, Total, Units, High;
    HighMeans(list[k], n, 0);
    PartKeeps(list, k, High(list[k], n));
    forall x: nat
      ensures IsFree(TakeTop(list, k, n), x) <==> IsFree(list, x) && !Covers(Blk(End(list[k]) - n, n), x)
      ensures Covers(Blk(End(list[k]) - n, n), x) ==> IsFree(list, x)
    {
      HighMeans(list[k], n, x);
      PartFree(list, k, High(list[k], n), x);
    }
  }

  lemma BlockFree(list: seq<Blk>, k: nat, x: nat)
    requires k < |list|
    ensures Covers(list[k], x) ==> IsFree(list, x)
  {
  }

  lemma NoneFree(x: nat)
    ensures !IsFree([], x)
  {
  }

  lemma OneTotal(mid: seq<Blk>)
    requires |mid| <= 1
    ensures Total(mid) == if mid == [] then 0 else mid[0].len
  {
    if mid != [] { assert mid[1..] == []; }
  }

  /** There is a block of at least n bytes exactly when n contiguous bytes are
      free. */
  lemma FitsIffRun(list: seq<Blk>, n: nat)
    requires Canonical(list) && n > 0
    ensures FirstFit(list, n) < |list| <==> HasRun(list, n)
    ensures LastFit(list, n) < |list| <==> FirstFit(list, n) < |list|
  {
    var k := FirstFit(list, n);
    if k < |list| {
      assert Run(list, list[k].addr, n) by {
        forall x | list[k].addr <= x < list[k].addr + n
          ensures IsFree(list, x)
        {
          assert Covers(list[k], x);
        }
      }
    } else if exists a: nat :: Run(list, a, n) {
      var a: nat :| Run(list, a, n);
      RunInOne(list, a, n);
    }
  }

  ghost predicate Run(list: seq<Blk>, a: nat, n: nat) {
    forall x :: a <= x < a + n ==> IsFree(list, x)
  }

  /** First fit finds the lowest run of free bytes that is long enough, and last fit
      the highest. */
  lemma LowestAndHighest(list: seq<Blk>, a: nat, n: nat)
    requires Canonical(list) && n > 0 && Run(list, a, n)
    ensures FirstFit(list, n) < |list| && list[FirstFit(list, n)].addr <= a
    ensures LastFit(list, n) < |list| && a + n <= End(list[LastFit(list, n)])
  {
    RunInOne(list, a, n);
    hide Canonical, Run;
    var i :| 0 <= i < |list| && list[i].addr <= a && a + n <= End(list[i]);
    var k, l := FirstFit(list, n), LastFit(list, n);
    assert k <= i <= l < |list|;
    if k < i { LowerBlock(list, k, i); }
    if i < l { LowerBlock(list, i, l); }
  }

  lemma LowerBlock(list: seq<Blk>, i: nat, j: nat)
    requires Canonical(list) && i < j < |list|
    ensures list[i].addr < End(list[i]) < list[j].addr < End(list[j])
  {
    assert Ok(list[i]) && Ok(list[j]);
  }

  /** The heap has n contiguous free bytes. */
  ghost predicate HasRun(list: seq<Blk>, n: nat) {
    exists a: nat :: Run(list, a, n)
  }

  /** Blocks do not touch, so contiguous free bytes are in one block. */
  lemma {:induction false} RunInOne(list: seq<Blk>, a: nat, n: nat)
    requires Canonical(list) && n > 0 && Run(list, a, n)
    ensures exists i :: 0 <= i < |list| && list[i].addr <= a && a + n <= End(list[i])
    decreases n
  {
    if n == 1 {
      assert IsFree(list, a);
      var i :| 0 <= i < |list| && Covers(list[i], a);
    } else {
      RunInOne(list, a, n - 1);
      var i :| 0 <= i < |list| && list[i].addr <= a && a + (n - 1) <= End(list[i]);
      assert IsFree(list, a + n - 1);
      var j :| 0 <= j < |list| && Covers(list[j], a + n - 1);
      assert i == j;
    }
  }

  // --------------------------------------------------------------- freemem

  /** How many blocks lie before address b. */
  function Before(list: seq<Blk>, b: nat): (k: nat)
    ensures k <= |list| && (k < |list| ==> list[k].addr >= b) && forall i :: 0 <= i < k ==> list[i].addr < b
  {
    if list == [] || list[0].addr >= b then 0 else
      var k := Before(list[1..], b);
      assert forall i :: 0 < i < 1 + k ==> list[i] == list[1..][i - 1];
      1 + k
  }

  /** freemem's test of the neighbours. */
  predicate Rejects(list: seq<Blk>, b: nat, n: nat) {
    var k := Before(list, b);
    (k > 0 && b < End(list[k - 1])) || (k < |list| && b + n > list[k].addr)
  }

  predicate JoinsLeft(list: seq<Blk>, b: nat) {
    var k := Before(list, b);
    k > 0 && End(list[k - 1]) == b
  }

  predicate JoinsRight(list: seq<Blk>, b: nat, n: nat) {
    var k := Before(list, b);
    k < |list| && b + n == list[k].addr
  }

  /** The block as it ends up, with the neighbours it touches. */
  function Merged(list: seq<Blk>, b: nat, n: nat): Blk {
    var k := Before(list, b);
    var addr := if JoinsLeft(list, b) && list[k - 1].addr <= b then list[k - 1].addr else b;
    var len := b - addr + n;
    Blk(addr, if JoinsRight(list, b, n) then len + list[k].len else len)
  }

  /** Places of the list that the released block replaces. */
  function LeftEdge(list: seq<Blk>, b: nat): (i: nat)
    ensures i <= Before(list, b) <= i + 1 && (i < Before(list, b) <==> JoinsLeft(list, b))
  {
    if JoinsLeft(list, b) then Before(list, b) - 1 else Before(list, b)
  }

  function RightEdge(list: seq<Blk>, b: nat, n: nat): (j: nat)
    ensures Before(list, b) <= j <= Before(list, b) + 1 && j <= |list|
    ensures Before(list, b) < j <==> JoinsRight(list, b, n)
  {
    if JoinsRight(list, b, n) then Before(list, b) + 1 else Before(list, b)
  }

  /** The free list after freemem. */
  function FreeList(list: seq<Blk>, b: nat, n: nat): seq<Blk> {
    Splice(list, LeftEdge(list, b), RightEdge(list, b, n), [Merged(list, b, n)])
  }

  /** The block to be released shares no byte with the free ones. */
  ghost predicate Apart(list: seq<Blk>, b: nat, n: nat) {
    forall x :: b <= x < b + n ==> !IsFree(list, x)
  }

  /** freemem accepts a block exactly when it overlaps no free block. */
  lemma RejectsIffOverlaps(list: seq<Blk>, b: nat, n: nat)
    requires Canonical(list) && n > 0
    ensures Rejects(list, b, n) <==> !Apart(list, b, n)
  {
    var k := Before(list, b);
    if Rejects(list, b, n) {
      if k > 0 && b < End(list[k - 1]) {
        assert Covers(list[k - 1], b);
        assert IsFree(list, b);
      } else {
        assert Covers(list[k], list[k].addr) by { assert Ok(list[k]); }
        assert IsFree(list, list[k].addr);
      }
    } else {
      forall x, i | b <= x < b + n && 0 <= i < |list|
        ensures !Covers(list[i], x)
      {
        NeighboursApart(list, b, n, x, i);
      }
    }
  }

  lemma NeighboursApart(list: seq<Blk>, b: nat, n: nat, x: nat, i: nat)
    requires Canonical(list) && !Rejects(list, b, n) && b <= x < b + n && i < |list|
    ensures !Covers(list[i], x)
  {
    var k := Before(list, b);
    if i < k {
      assert i < k - 1 ==> End(list[i]) < list[k - 1].addr;
    } else {
      assert i > k ==> list[k].addr <= End(list[k]) < list[i].addr;
    }
  }

  lemma NeighboursOk(list: seq<Blk>, b: nat)
    requires Canonical(list)
    ensures Before(list, b) > 0 ==> Ok(list[Before(list, b) - 1])
    ensures Before(list, b) < |list| ==> Ok(list[Before(list, b)])
  {
  }

  lemma MergedIs(list: seq<Blk>, b: nat, n: nat)
    requires Canonical(list) && b > 0 && n > 0 && Units(n) && !Rejects(list, b, n)
    ensures var k, y := Before(list, b), Merged(list, b, n);
            && Ok(y)
            && y.addr == (if JoinsLeft(list, b) then list[k - 1].addr else b)
            && End(y) == (if JoinsRight(list, b, n) then End(list[k]) else b + n)
            && y.len == (if JoinsLeft(list, b) then list[k - 1].len else 0) + n
                        + if JoinsRight(list, b, n) then list[k].len else 0
  {
    hide Canonical, Before, Units, Rejects;
    NeighboursOk(list, b);
    var k := Before(list, b);
    var left := if k > 0 then list[k - 1].len else 0;
    var right := if k < |list| then list[k].len else 0;
    UnitsSum(left, n);
    UnitsSum(n, right);
    UnitsSum(left + n, right);
  }

  lemma MergedLeft(list: seq<Blk>, b: nat, n: nat)
    requires Canonical(list) && b > 0 && n > 0 && Units(n) && !Rejects(list, b, n)
    ensures Below(list[..LeftEdge(list, b)], [Merged(list, b, n)])
  {
    var k := Before(list, b);
    MergedIs(list, b, n);
    hide Ok, Merged, Before;
    forall m | 0 <= m < LeftEdge(list, b)
      ensures End(list[m]) < Merged(list, b, n).addr
    {
      assert m < k - 1 ==> End(list[m]) < list[k - 1].addr;
    }
  }

  lemma MergedRight(list: seq<Blk>, b: nat, n: nat)
    requires Canonical(list) && b > 0 && n > 0 && Units(n) && !Rejects(list, b, n)
    ensures Below([Merged(list, b, n)], list[RightEdge(list, b, n)..])
  {
    var k := Before(list, b);
    MergedIs(list, b, n);
    hide Ok, Merged, Before;
    var j := RightEdge(list, b, n);
    forall m | j <= m < |list|
      ensures End(Merged(list, b, n)) < list[m].addr
    {
      assert m > k ==> End(list[k]) < list[m].addr;
    }
    assert forall m :: 0 <= m < |list[j..]| ==> list[j..][m] == list[j + m];
  }

  /** Releasing a block that overlaps no free one: the list stays canonical, just
      its bytes become free, and the sizes add up. */
  lemma Released(list: seq<Blk>, b: nat, n: nat)
    requires Canonical(list) && b > 0 && n > 0 && Units(n) && !Rejects(list, b, n)
    ensures Canonical(FreeList(list, b, n)) && Total(FreeList(list, b, n)) == Total(list) + n
    ensures forall x :: IsFree(FreeList(list, b, n), x) <==> IsFree(list, x) || Covers(Blk(b, n), x)
  {
    hide Canonical, IsFree, Total, Below, Splice, Before, Merged, Rejects, JoinsLeft, JoinsRight, LeftEdge, RightEdge;
    var i, j := LeftEdge(list, b), RightEdge(list, b, n);
    var y := Merged(list, b, n);
    MergedLeft(list, b, n);
    MergedRight(list, b, n);
    OneCanonical(list, b, n);
    SpliceKeeps(list, i, j, [y]);
    SpliceMeans(list, i, j, [y]);
    SpliceMeans(list, i, j, list[i..j]);
    SpliceWhole(list, i, j);
    MiddleTotal(list, b, n);
    forall x: nat
      ensures IsFree([y], x) <==> IsFree(list[i..j], x) || Covers(Blk(b, n), x)
    {
      MiddleFree(list, b, n, x);
    }
  }

  lemma OneCanonical(list: seq<Blk>, b: nat, n: nat)
    requires Canonical(list) && b > 0 && n > 0 && Units(n) && !Rejects(list, b, n)
    ensures Canonical([Merged(list, b, n)])
  {
    MergedIs(list, b, n);
    hide Ok, Merged;
  }

  lemma MiddleTotal(list: seq<Blk>, b: nat, n: nat)
    requires Canonical(list) && b > 0 && n > 0 && Units(n) && !Rejects(list, b, n)
    ensures Total([Merged(list, b, n)]) == Total(list[LeftEdge(list, b)..RightEdge(list, b, n)]) + n
  {
    var i, k, j := LeftEdge(list, b), Before(list, b), RightEdge(list, b, n);
    MergedIs(list, b, n);
    hide Canonical, Total, Ok, Before, Merged, Rejects;
    assert list[i..j] == list[i..k] + list[k..j];
    TotalJoin(list[i..k], list[k..j]);
    OneTotal(list[i..k]);
    OneTotal(list[k..j]);
    OneTotal([Merged(list, b, n)]);
  }

  lemma MiddleFree(list: seq<Blk>, b: nat, n: nat, x: nat)
    requires Canonical(list) && b > 0 && n > 0 && Units(n) && !Rejects(list, b, n)
    ensures IsFree([Merged(list, b, n)], x) <==>
              IsFree(list[LeftEdge(list, b)..RightEdge(list, b, n)], x) || Covers(Blk(b, n), x)
  {
    var i, k, j := LeftEdge(list, b), Before(list, b), RightEdge(list, b, n);
    MergedIs(list, b, n);
    hide Canonical, IsFree, Ok, Before, Merged, Rejects;
    FreeOne(Merged(list, b, n), x);
    assert list[i..j] == list[i..k] + list[k..j];
    FreeJoin(list[i..k], list[k..j], x);
    NoneFree(x);
    if i < k { assert list[i..k] == [list[k - 1]]; FreeOne(list[k - 1], x); } else { assert list[i..k] == []; }
    if k < j { assert list[k..j] == [list[k]]; FreeOne(list[k], x); } else { assert list[k..j] == []; }
  }

  // ------------------------------------------------- the canonical form

  lemma FirstByte(list: seq<Blk>, x: nat)
    requires Canonical(list) && list != []
    ensures IsFree(list, x) ==> x >= list[0].addr
    ensures IsFree(list, list[0].addr) && !IsFree(list, End(list[0]))
    ensures IsFree(list[1..], x) <==> IsFree(list, x) && x > End(list[0])
    ensures Canonical(list[1..])
  {
    assert Ok(list[0]) && Covers(list[0], list[0].addr);
    assert forall i :: 0 < i < |list| ==> list[i] == list[1..][i - 1] && End(list[0]) < list[i].addr;
    if IsFree(list, x) && x > End(list[0]) {
      var i :| 0 <= i < |list| && Covers(list[i], x);
      assert Covers(list[1..][i - 1], x);
    }
  }

  /** A coalesced, sorted list is determined by its set of free bytes. */
  lemma {:induction false} Unique(a: seq<Blk>, b: seq<Blk>)
    requires Canonical(a) && Canonical(b) && forall x :: IsFree(a, x) <==> IsFree(b, x)
    ensures a == b
    decreases |a|
  {
    hide Canonical;
    if a == [] {
      if b != [] { FirstByte(b, 0); }
    } else if b == [] {
      FirstByte(a, 0);
    } else {
      SameFirst(a, b);
      forall x
        ensures IsFree(a[1..], x) <==> IsFree(b[1..], x)
      {
        FirstByte(a, x);
        FirstByte(b, x);
      }
      FirstByte(a, 0);
      FirstByte(b, 0);
      Unique(a[1..], b[1..]);
      assert a == [a[0]] + a[1..] && b == [b[0]] + b[1..];
    }
  }

  lemma SameFirst(a: seq<Blk>, b: seq<Blk>)
    requires Canonical(a) && Canonical(b) && a != [] && b != [] && forall x :: IsFree(a, x) <==> IsFree(b, x)
    ensures a[0] == b[0]
  {
    hide IsFree;
    FirstByte(a, b[0].addr);
    FirstByte(b, a[0].addr);
    assert a[0].addr == b[0].addr;
    FirstCovered(a, End(b[0]));
    FirstCovered(b, End(a[0]));
  }

  lemma FirstCovered(list: seq<Blk>, x: nat)
    requires list != []
    ensures Covers(list[0], x) ==> IsFree(list, x)
  {
  }

  /** freemem undoes getmem to the very same list. */
  lemma GetThenFree(list: seq<Blk>, k: nat, n: nat)
    requires Canonical(list) && k < |list| && 0 < n <= list[k].len && Units(n)
    ensures !Rejects(TakeBottom(list, k, n), list[k].addr, n)
    ensures FreeList(TakeBottom(list, k, n), list[k].addr, n) == list
  {
    hide Canonical, TakeBottom, FreeList, IsFree, Rejects, Total;
    TakenBottom(list, k, n);
    PutBack(list, TakeBottom(list, k, n), list[k].addr, n);
  }

  /** freestk undoes getstk to the very same list. */
  lemma StkThenFree(list: seq<Blk>, k: nat, n: nat)
    requires Canonical(list) && k < |list| && 0 < n <= list[k].len && Units(n)
    ensures !Rejects(TakeTop(list, k, n), End(list[k]) - n, n)
    ensures FreeList(TakeTop(list, k, n), End(list[k]) - n, n) == list
  {
    hide Canonical, TakeTop, FreeList, IsFree, Rejects, Total;
    TakenTop(list, k, n);
    PutBack(list, TakeTop(list, k, n), End(list[k]) - n, n);
  }

  lemma PutBack(list: seq<Blk>, less: seq<Blk>, b: nat, n: nat)
    requires Canonical(list) && Canonical(less) && b > 0 && n > 0 && Units(n)
    requires forall x :: IsFree(less, x) <==> IsFree(list, x) && !Covers(Blk(b, n), x)
    requires forall x :: Covers(Blk(b, n), x) ==> IsFree(list, x)
    ensures !Rejects(less, b, n) && FreeList(less, b, n) == list
  {
    hide Canonical, FreeList, IsFree, Rejects;
    assert Apart(less, b, n);
    RejectsIffOverlaps(less, b, n);
    Released(less, b, n);
    Unique(FreeList(less, b, n), list);
  }

  // ------------------------------------------------------------- any order

  /** Blocks released one after the other. */
  function FreeAll(list: seq<Blk>, blocks: seq<Blk>): seq<Blk>
    decreases |blocks|
  {
    if blocks == [] then list else FreeAll(FreeList(list, blocks[0].addr, blocks[0].len), blocks[1..])
  }

  /** Blocks that can all be released: whole units, apart from what is free and
      from each other. */
  ghost predicate Releasable(list: seq<Blk>, blocks: seq<Blk>) {
    && (forall i :: 0 <= i < |blocks| ==> Ok(blocks[i]) && Apart(list, blocks[i].addr, blocks[i].len))
    && (forall i, j :: 0 <= i < j < |blocks| ==> End(blocks[i]) <= blocks[j].addr || End(blocks[j]) <= blocks[i].addr)
  }

  lemma ReleasableRest(list: seq<Blk>, blocks: seq<Blk>)
    requires Canonical(list) && Releasable(list, blocks) && blocks != []
    ensures !Rejects(list, blocks[0].addr, blocks[0].len) && Ok(blocks[0])
    ensures Releasable(FreeList(list, blocks[0].addr, blocks[0].len), blocks[1..])
  {
    var b := blocks[0];
    assert Ok(b) && Apart(list, b.addr, b.len);
    RejectsIffOverlaps(list, b.addr, b.len);
    Released(list, b.addr, b.len);
    var more := FreeList(list, b.addr, b.len);
    hide FreeList, Rejects, Canonical;
    forall i | 0 <= i < |blocks[1..]|
      ensures Ok(blocks[1..][i]) && Apart(more, blocks[1..][i].addr, blocks[1..][i].len)
    {
      var c := blocks[i + 1];
      assert Ok(c) && Apart(list, c.addr, c.len);
      assert End(b) <= c.addr || End(c) <= b.addr;
      forall x | c.addr <= x < c.addr + c.len
        ensures !IsFree(more, x)
      {
        assert !IsFree(list, x) && !Covers(b, x) && Blk(b.addr, b.len) == b;
      }
    }
  }

  lemma {:induction false} FreeAllAdds(list: seq<Blk>, blocks: seq<Blk>)
    requires Canonical(list) && Releasable(list, blocks)
    ensures Canonical(FreeAll(list, blocks))
    ensures forall x :: IsFree(FreeAll(list, blocks), x) <==> IsFree(list, x) || IsFree(blocks, x)
    decreases |blocks|
  {
    hide Canonical, Releasable, FreeList, Rejects, IsFree;
    if blocks == [] {
      forall x
        ensures !IsFree(blocks, x)
      {
        NoneFree(x);
      }
    } else {
      var b := blocks[0];
      ReleasableRest(list, blocks);
      Released(list, b.addr, b.len);
      FreeAllAdds(FreeList(list, b.addr, b.len), blocks[1..]);
      forall x
        ensures IsFree(blocks, x) <==> Covers(b, x) || IsFree(blocks[1..], x)
      {
        assert blocks == [b] + blocks[1..];
        FreeJoin([b], blocks[1..], x);
        FreeOne(b, x);
      }
      assert Blk(b.addr, b.len) == b;
    }
  }

  /** Releasing a set of blocks gives the same list in any order. */
  lemma AnyOrder(list: seq<Blk>, blocks: seq<Blk>, other: seq<Blk>)
    requires Canonical(list) && Releasable(list, blocks) && Releasable(list, other)
    requires forall b :: b in blocks <==> b in other
    ensures FreeAll(list, blocks) == FreeAll(list, other)
  {
    hide Canonical, Releasable, FreeAll;
    FreeAllAdds(list, blocks);
    FreeAllAdds(list, other);
    forall x
      ensures IsFree(blocks, x) <==> IsFree(other, x)
    {
      SameBlocks(blocks, other, x);
      SameBlocks(other, blocks, x);
    }
    Unique(FreeAll(list, blocks), FreeAll(list, other));
  }

  lemma SameBlocks(blocks: seq<Blk>, other: seq<Blk>, x: nat)
    requires forall b :: b in blocks ==> b in other
    ensures IsFree(blocks, x) ==> IsFree(other, x)
  {
    if IsFree(blocks, x) {
      var i :| 0 <= i < |blocks| && Covers(blocks[i], x);
      assert blocks[i] in blocks;
      var j :| 0 <= j < |other| && other[j] == blocks[i];
    }
  }
}
