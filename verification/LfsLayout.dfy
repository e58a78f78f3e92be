/** Disk layout of the local file system: 512-byte sectors, 72-byte index
    blocks packed seven to a sector, and the link word of a free data block. */
module LfsLayout {

  newtype byte = b: int | 0 <= b < 256

  type int32 = x: int | -0x8000_0000 <= x < 0x8000_0000

  type uint32 = x: int | 0 <= x < 0x1_0000_0000

  const BLKSIZ: nat := 512
  const IBLEN: nat := 16
  const IDATA: nat := 8192
  const INULL: int32 := -1
  const DNULL: int32 := -1
  const IBSIZE: nat := 72
  const AREA_IB: nat := 1

  type Sector = s: seq<byte> | |s| == 512 witness seq(512, _ => 0)

  datatype Lfiblk = Lfiblk(next: int32, offset: uint32, dba: seq<int32>)

  type IBlock = b: Lfiblk | |b.dba| == 16 witness Lfiblk(0, 0, seq(16, _ => 0))

  function Ib2sect(ib: nat): nat { ib / 7 + AREA_IB }

  function Ib2disp(ib: nat): (d: nat)
    ensures d + IBSIZE <= BLKSIZ
  {
    ib % 7 * IBSIZE
  }

  // ------------------------------------------------------------------- words

  function Word(x: uint32): (w: seq<byte>)
    ensures |w| == 4
  {
    [(x % 256) as byte, (x / 256 % 256) as byte, (x / 65536 % 256) as byte, (x / 16777216) as byte]
  }

  function WordValue(w: seq<byte>): uint32
    requires |w| == 4
  {
    w[0] as int + 256 * (w[1] as int) + 65536 * (w[2] as int) + 16777216 * (w[3] as int)
  }

  lemma WordRoundTrip(x: uint32)
    ensures WordValue(Word(x)) == x
  {
  }

  function Unsigned(x: int32): uint32 {
    if x < 0 then x + 0x1_0000_0000 else x
  }

  function Signed(x: uint32): int32 {
    if x < 0x8000_0000 then x else x - 0x1_0000_0000
  }

  function Words(xs: seq<int32>): (w: seq<byte>)
    ensures |w| == 4 * |xs|
  {
    if xs == [] then [] else Word(Unsigned(xs[0])) + Words(xs[1..])
  }

  function WordsValue(w: seq<byte>, n: nat): (xs: seq<int32>)
    requires |w| == 4 * n
    ensures |xs| == n
    decreases n
  {
    if n == 0 then [] else [Signed(WordValue(w[..4]))] + WordsValue(w[4..], n - 1)
  }

  lemma {:induction false} WordsRoundTrip(xs: seq<int32>)
    ensures WordsValue(Words(xs), |xs|) == xs
  {
    if xs != [] {
      var w := Words(xs);
      assert w[..4] == Word(Unsigned(xs[0])) && w[4..] == Words(xs[1..]);
      WordRoundTrip(Unsigned(xs[0]));
      WordsRoundTrip(xs[1..]);
    }
  }

  // ------------------------------------------------------------ index blocks

  function Encode(b: IBlock): (raw: seq<byte>)
    ensures |raw| == IBSIZE
  {
    Word(Unsigned(b.next)) + Word(b.offset) + Words(b.dba)
  }

  function Decode(raw: seq<byte>): IBlock
    requires |raw| == IBSIZE
  {
    Lfiblk(Signed(WordValue(raw[..4])), WordValue(raw[4..8]), WordsValue(raw[8..], 16))
  }

  lemma DecodeEncode(b: IBlock)
    ensures Decode(Encode(b)) == b
  {
    var raw := Encode(b);
    assert raw[..4] == Word(Unsigned(b.next)) && raw[4..8] == Word(b.offset) && raw[8..] == Words(b.dba);
    WordRoundTrip(Unsigned(b.next));
    WordRoundTrip(b.offset);
    WordsRoundTrip(b.dba);
  }

  /** Index block ib as it lies in its sector. */
  function InSector(sec: Sector, ib: nat): IBlock {
    Decode(sec[Ib2disp(ib)..Ib2disp(ib) + IBSIZE])
  }

  /** The sector with index block ib replaced. */
  function PutInSector(sec: Sector, ib: nat, b: IBlock): Sector {
    sec[..Ib2disp(ib)] + Encode(b) + sec[Ib2disp(ib) + IBSIZE..]
  }

  /** Storing an index block makes it readable and disturbs none of the other
      six in the sector. */
  lemma PutGet(sec: Sector, ib: nat, b: IBlock, other: nat)
    ensures other % 7 == ib % 7 ==> InSector(PutInSector(sec, ib, b), other) == b
    ensures other % 7 != ib % 7 ==> InSector(PutInSector(sec, ib, b), other) == InSector(sec, other)
  {
    var t := PutInSector(sec, ib, b);
    var d, e := Ib2disp(ib), Ib2disp(other);
    if other % 7 == ib % 7 {
      assert t[d..d + IBSIZE] == Encode(b);
      DecodeEncode(b);
    } else {
      assert e + IBSIZE <= d || d + IBSIZE <= e;
      assert t[e..e + IBSIZE] == sec[e..e + IBSIZE];
    }
  }

  lemma SameSlot(x: nat, y: nat)
    ensures Ib2sect(x) == Ib2sect(y) && x % 7 == y % 7 ==> x == y
  {
  }

  // ------------------------------------------------------- free data blocks

  /** The link held by a data block on the free list. */
  function FreeLink(sec: Sector): int32 {
    Signed(WordValue(sec[..4]))
  }

  /** A free block that links to next; the rest of the sector is arbitrary. */
  function FreeBlock(next: int32, rest: Sector): (sec: Sector)
    ensures FreeLink(sec) == next
  {
    var sec := Word(Unsigned(next)) + rest[4..];
    assert sec[..4] == Word(Unsigned(next));
    WordRoundTrip(Unsigned(next));
    sec
  }
}
