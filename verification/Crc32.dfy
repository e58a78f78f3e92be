/** The CRC of the boot-image tool: a 256-entry table and a loop unrolled by
    eight, proved equal to the CRC that feeds one message bit at a time into
    the shift register. */
module Crc32 {

  // The reversed generator polynomial.
  const POLY: bv32 := 0xedb8_8320

  const ALL_ONES: bv32 := 0xffff_ffff

  // ------------------------------------------------------- register operations

  function Xor(x: bv32, y: bv32): bv32 { x ^ y }

  function Half(x: bv32): bv32 { x >> 1 }

  function LowBit(x: bv32): bv32 { x & 1 }

  function LowByte(x: bv32): bv32 { x & 0xff }

  function Wide(b: bv8): bv32 { b as bv32 }

  function DropByte(x: bv32): bv32 { x >> 8 }

  // ---------------------------------------------------------------- reference

  /** Multiply the register by x modulo the polynomial. */
  function ShiftStep(c: bv32): bv32 {
    if LowBit(c) == 1 then Xor(POLY, Half(c)) else Half(c)
  }

  function ShiftSteps(c: bv32, k: nat): bv32
    decreases k
  {
    if k == 0 then c else ShiftSteps(ShiftStep(c), k - 1)
  }

  /** The low n bits of b, least significant first. */
  function LowBits(b: bv32, n: nat): (bits: seq<bv32>)
    ensures |bits| == n
    decreases n
  {
    if n == 0 then [] else [LowBit(b)] + LowBits(Half(b), n - 1)
  }

  /** The bits of a message in the order of RFC 1952: bytes in order, each
      byte from its least significant bit. */
  function MessageBits(s: seq<bv8>): seq<bv32> {
    if s == [] then [] else LowBits(Wide(s[0]), 8) + MessageBits(s[1..])
  }

  /** The bit-serial register: each incoming bit is added to the low end, then
      the register is shifted once. */
  function BitSerial(c: bv32, bits: seq<bv32>): bv32
    decreases |bits|
  {
    if bits == [] then c else BitSerial(ShiftStep(Xor(c, bits[0])), bits[1..])
  }

  /** The CRC of a byte string, continued from the CRC of what came before. */
  function Crc(start: bv32, s: seq<bv8>): bv32 {
    Xor(BitSerial(Xor(start, ALL_ONES), MessageBits(s)), ALL_ONES)
  }

  // -------------------------------------------------------------- linear steps

  lemma LowBitCases(x: bv32)
    ensures LowBit(x) == 0 || LowBit(x) == 1
  {
  }

  lemma XorParts(x: bv32, y: bv32)
    ensures LowBit(Xor(x, y)) == Xor(LowBit(x), LowBit(y))
    ensures Half(Xor(x, y)) == Xor(Half(x), Half(y))
  {
  }

  lemma XorCancels(p: bv32, x: bv32, y: bv32)
    ensures Xor(Xor(p, x), Xor(p, y)) == Xor(x, y)
  {
    assert (p ^ x) ^ (p ^ y) == x ^ y;
  }

  lemma XorSwaps(p: bv32, x: bv32, y: bv32)
    ensures Xor(x, Xor(p, y)) == Xor(p, Xor(x, y))
  {
    assert x ^ (p ^ y) == p ^ (x ^ y);
  }

  lemma XorAssociates(p: bv32, x: bv32, y: bv32)
    ensures Xor(Xor(p, x), y) == Xor(p, Xor(x, y))
  {
    assert (p ^ x) ^ y == p ^ (x ^ y);
  }

  lemma XorTwice(x: bv32, p: bv32)
    ensures Xor(Xor(x, p), p) == x
  {
  }

  lemma XorOfBits()
    ensures Xor(0, 0) == 0 && Xor(1, 1) == 0 && Xor(0, 1) == 1 && Xor(1, 0) == 1
  {
  }

  lemma XorZero(x: bv32)
    ensures Xor(x, 0) == x && Xor(x, x) == 0
  {
  }

  /** Addition over GF(2) commutes with the shift step. */
  lemma ShiftStepLinear(x: bv32, y: bv32)
    ensures ShiftStep(Xor(x, y)) == Xor(ShiftStep(x), ShiftStep(y))
  {
    LowBitCases(x);
    LowBitCases(y);
    XorParts(x, y);
    XorOfBits();
    XorSwaps(POLY, Half(x), Half(y));
    XorAssociates(POLY, Half(x), Half(y));
    XorCancels(POLY, Half(x), Half(y));
  }

  lemma {:induction false} ShiftStepsLinear(x: bv32, y: bv32, k: nat)
    ensures ShiftSteps(Xor(x, y), k) == Xor(ShiftSteps(x, k), ShiftSteps(y, k))
    decreases k
  {
    if k != 0 {
      ShiftStepLinear(x, y);
      ShiftStepsLinear(ShiftStep(x), ShiftStep(y), k - 1);
    }
  }

  // ---------------------------------------------------------------- byte steps

  /** The table entry for n: the register value n after eight shift steps. */
  function Table(n: bv32): bv32 {
    ShiftSteps(n, 8)
  }

  /** One table look-up with its shift. */
  function TableStep(c: bv32, b: bv8): bv32 {
    Xor(Table(LowByte(Xor(c, Wide(b)))), DropByte(c))
  }

  function Halves(w: bv32, n: nat): bv32
    decreases n
  {
    if n == 0 then w else Halves(Half(w), n - 1)
  }

  lemma TwoHalves(w: bv32)
    ensures Half(Half(w)) == w >> 2
  {
    assert (w >> 1) >> 1 == w >> 2;
  }

  lemma FourHalves(w: bv32)
    ensures Half(Half(Half(Half(w)))) == w >> 4
  {
    TwoHalves(w);
    TwoHalves(Half(Half(w)));
    assert (w >> 2) >> 2 == w >> 4;
  }

  lemma EightHalves(w: bv32)
    ensures Halves(w, 8) == DropByte(w)
  {
    var m := Half(Half(Half(Half(w))));
    assert Halves(m, 4) == Half(Half(Half(Half(m))));
    assert Halves(w, 8) == Halves(m, 4);
    FourHalves(w);
    FourHalves(m);
    assert (w >> 4) >> 4 == w >> 8;
  }

  predicate ZeroLow(w: bv32, n: nat)
    decreases n
  {
    n == 0 || (LowBit(w) == 0 && ZeroLow(Half(w), n - 1))
  }

  lemma ZeroLowByte(w: bv32)
    requires LowByte(w) == 0
    ensures ZeroLow(w, 8)
  {
    var w1 := Half(w); var w2 := Half(w1); var w3 := Half(w2); var w4 := Half(w3);
    var w5 := Half(w4); var w6 := Half(w5); var w7 := Half(w6);
    assert LowBit(w) == 0 && LowBit(w1) == 0 && LowBit(w2) == 0 && LowBit(w3) == 0;
    assert LowBit(w4) == 0 && LowBit(w5) == 0 && LowBit(w6) == 0 && LowBit(w7) == 0;
    assert ZeroLow(w4, 4);
  }

  /** Over zero bits at the low end the steps are plain shifts. */
  lemma {:induction false} ClearBitsShift(w: bv32, n: nat)
    requires ZeroLow(w, n)
    ensures ShiftSteps(w, n) == Halves(w, n)
    decreases n
  {
    if n != 0 {
      ClearBitsShift(Half(w), n - 1);
    }
  }

  lemma SplitLowByte(z: bv32)
    ensures z == Xor(LowByte(z), Xor(z, LowByte(z)))
    ensures LowByte(Xor(z, LowByte(z))) == 0
    ensures DropByte(Xor(z, LowByte(z))) == DropByte(z)
  {
  }

  /** Eight steps are one look-up on the low byte and a shift of the rest. */
  lemma EightSteps(z: bv32)
    ensures ShiftSteps(z, 8) == Xor(Table(LowByte(z)), DropByte(z))
  {
    SplitLowByte(z);
    var high := Xor(z, LowByte(z));
    ShiftStepsLinear(LowByte(z), high, 8);
    ZeroLowByte(high);
    ClearBitsShift(high, 8);
    EightHalves(high);
  }

  lemma DropLowBit(c: bv32, b: bv32)
    ensures Xor(c, b) == Xor(Xor(c, LowBit(b)), Xor(b, LowBit(b)))
    ensures LowBit(Xor(b, LowBit(b))) == 0
    ensures Half(Xor(b, LowBit(b))) == Half(b)
  {
  }

  /** Feeding n bits one by one is adding them all at once and shifting n
      times; the bits above the n come through unreduced. */
  lemma {:induction false} BitsAtOnce(c: bv32, b: bv32, n: nat)
    ensures BitSerial(c, LowBits(b, n)) == Xor(ShiftSteps(Xor(c, b), n), Halves(b, n))
    decreases n
  {
    if n == 0 {
      XorTwice(c, b);
    } else {
      var bits := LowBits(b, n);
      assert bits[0] == LowBit(b) && bits[1..] == LowBits(Half(b), n - 1);
      var rest := Xor(b, LowBit(b));
      BitsAtOnce(ShiftStep(Xor(c, LowBit(b))), Half(b), n - 1);
      DropLowBit(c, b);
      ShiftStepLinear(Xor(c, LowBit(b)), rest);
      assert ShiftStep(rest) == Half(b);
    }
  }

  lemma ByteAddsBelow(c: bv32, b: bv8)
    ensures DropByte(Wide(b)) == 0
    ensures DropByte(Xor(c, Wide(b))) == DropByte(c)
  {
  }

  /** A table step is exactly eight bit-serial steps. */
  lemma TableStepIsBitSerial(c: bv32, b: bv8)
    ensures TableStep(c, b) == BitSerial(c, LowBits(Wide(b), 8))
  {
    var z := Xor(c, Wide(b));
    ByteAddsBelow(c, b);
    XorZero(ShiftSteps(z, 8));
    EightHalves(Wide(b));
    BitsAtOnce(c, Wide(b), 8);
    EightSteps(z);
  }

  lemma {:induction false} BitSerialAppend(c: bv32, x: seq<bv32>, y: seq<bv32>)
    ensures BitSerial(c, x + y) == BitSerial(BitSerial(c, x), y)
    decreases |x|
  {
    if x == [] {
      assert x + y == y;
    } else {
      assert (x + y)[0] == x[0] && (x + y)[1..] == x[1..] + y;
      BitSerialAppend(ShiftStep(Xor(c, x[0])), x[1..], y);
    }
  }

  lemma {:induction false} MessageBitsAppend(s: seq<bv8>, t: seq<bv8>)
    ensures MessageBits(s + t) == MessageBits(s) + MessageBits(t)
    decreases |s|
  {
    if s == [] {
      assert s + t == t;
    } else {
      assert (s + t)[0] == s[0] && (s + t)[1..] == s[1..] + t;
      MessageBitsAppend(s[1..], t);
    }
  }

  lemma OneByte(c: bv32, s: seq<bv8>, k: nat)
    requires k < |s|
    ensures BitSerial(c, MessageBits(s[..k + 1])) == TableStep(BitSerial(c, MessageBits(s[..k])), s[k])
  {
    var last := [s[k]];
    assert s[..k + 1] == s[..k] + last;
    MessageBitsAppend(s[..k], last);
    assert MessageBits(last) == LowBits(Wide(s[k]), 8) + MessageBits(last[1..]);
    assert MessageBits(last) == LowBits(Wide(s[k]), 8);
    BitSerialAppend(c, MessageBits(s[..k]), MessageBits(last));
    TableStepIsBitSerial(BitSerial(c, MessageBits(s[..k])), s[k]);
  }

  /** A CRC may be computed piecewise. */
  lemma CrcConcat(start: bv32, a: seq<bv8>, b: seq<bv8>)
    ensures Crc(Crc(start, a), b) == Crc(start, a + b)
  {
    var mid := BitSerial(Xor(start, ALL_ONES), MessageBits(a));
    XorTwice(mid, ALL_ONES);
    MessageBitsAppend(a, b);
    BitSerialAppend(Xor(start, ALL_ONES), MessageBits(a), MessageBits(b));
  }

  // ------------------------------------------------------------ the residue

  function LowOctet(x: bv32): bv8 { (x & 0xff) as bv8 }

  /** The bytes of a CRC as they follow a message: the low byte first. */
  function CrcBytes(c: bv32): seq<bv8> {
    [LowOctet(c), LowOctet(DropByte(c)), LowOctet(DropByte(DropByte(c))), LowOctet(DropByte(DropByte(DropByte(c))))]
  }

  lemma OctetIsLowByte(x: bv32)
    ensures Wide(LowOctet(x)) == LowByte(x)
  {
  }

  /** Bits above the n do not show in the low n bits. */
  lemma {:induction false} HighBitsUnseen(x: bv32, w: bv32, n: nat)
    requires ZeroLow(w, n)
    ensures LowBits(Xor(x, w), n) == LowBits(x, n)
    decreases n
  {
    if n != 0 {
      XorParts(x, w);
      XorZero(LowBit(x));
      HighBitsUnseen(Half(x), Half(w), n - 1);
    }
  }

  lemma OctetBits(x: bv32)
    ensures LowBits(Wide(LowOctet(x)), 8) == LowBits(x, 8)
  {
    OctetIsLowByte(x);
    SplitLowByte(x);
    var high := Xor(x, LowByte(x));
    ZeroLowByte(high);
    HighBitsUnseen(LowByte(x), high, 8);
  }

  lemma {:induction false} BitsInTwo(x: bv32, m: nat, n: nat)
    ensures LowBits(x, m + n) == LowBits(x, m) + LowBits(Halves(x, m), n)
    decreases m
  {
    if m != 0 { BitsInTwo(Half(x), m - 1, n); }
  }

  lemma {:induction false} HalvesInTwo(x: bv32, m: nat, n: nat)
    ensures Halves(x, m + n) == Halves(Halves(x, m), n)
    decreases m
  {
    if m != 0 { HalvesInTwo(Half(x), m - 1, n); }
  }

  lemma NothingLeft(x: bv32)
    ensures DropByte(DropByte(DropByte(DropByte(x)))) == 0
  {
  }

  /** The bits of the four bytes are the 32 bits, and no more. */
  lemma CrcBits(c: bv32)
    ensures MessageBits(CrcBytes(c)) == LowBits(c, 32) && Halves(c, 32) == 0
  {
    var d := DropByte(c); var e := DropByte(d); var f := DropByte(e);
    OctetBits(c); OctetBits(d); OctetBits(e); OctetBits(f);
    EightHalves(c); EightHalves(d); EightHalves(e); EightHalves(f);
    BitsInTwo(c, 8, 24); BitsInTwo(d, 8, 16); BitsInTwo(e, 8, 8);
    HalvesInTwo(c, 8, 24); HalvesInTwo(d, 8, 16); HalvesInTwo(e, 8, 8);
    NothingLeft(c);
    FourOctets(LowOctet(c), LowOctet(d), LowOctet(e), LowOctet(f));
  }

  lemma FourOctets(a: bv8, b: bv8, c: bv8, d: bv8)
    ensures MessageBits([a, b, c, d]) ==
              LowBits(Wide(a), 8) + (LowBits(Wide(b), 8) + (LowBits(Wide(c), 8) + LowBits(Wide(d), 8)))
  {
    hide LowBits;
    assert [a, b, c, d][1..] == [b, c, d] && [b, c, d][1..] == [c, d] && [c, d][1..] == [d] && [d][1..] == [];
    assert MessageBits([d]) == LowBits(Wide(d), 8) + MessageBits([]);
    assert MessageBits([c, d]) == LowBits(Wide(c), 8) + MessageBits([d]);
    assert MessageBits([b, c, d]) == LowBits(Wide(b), 8) + MessageBits([c, d]);
  }

  lemma {:induction false} StepsInTwo(x: bv32, m: nat, n: nat)
    ensures ShiftSteps(x, m + n) == ShiftSteps(ShiftSteps(x, m), n)
    decreases m
  {
    if m != 0 { StepsInTwo(ShiftStep(x), m - 1, n); }
  }

  lemma OnesShifted()
    ensures ShiftSteps(ALL_ONES, 32) == 0xdebb_20e3
  {
    assert ShiftSteps(0xffff_ffff, 8) == 0x2dfd_1072;
    assert ShiftSteps(0x2dfd_1072, 8) == 0xbe26_ed00;
    assert ShiftSteps(0xbe26_ed00, 8) == 0x00be_26ed;
    assert ShiftSteps(0x00be_26ed, 8) == 0xdebb_20e3;
    StepsInTwo(ALL_ONES, 8, 24);
    StepsInTwo(0x2dfd_1072, 8, 16);
    StepsInTwo(0xbe26_ed00, 8, 8);
  }

  /** The residue: the CRC of any message followed by its own CRC is the same number,
      so that a receiver need not find out where the message ends. */
  lemma Residue(s: seq<bv8>)
    ensures Crc(0, s + CrcBytes(Crc(0, s))) == 0x2144_df1c
  {
    var first := Xor(0, ALL_ONES);
    var r := BitSerial(first, MessageBits(s));
    var c := Xor(r, ALL_ONES);
    MessageBitsAppend(s, CrcBytes(c));
    BitSerialAppend(first, MessageBits(s), MessageBits(CrcBytes(c)));
    CrcBits(c);
    BitsAtOnce(r, c, 32);
    XorAgain(r, ALL_ONES);
    OnesShifted();
    XorZero(ShiftSteps(ALL_ONES, 32));
    LastXor();
    hide BitSerial, MessageBits, ShiftSteps, Halves, LowBits, CrcBytes;
  }

  lemma XorAgain(x: bv32, y: bv32)
    ensures Xor(x, Xor(x, y)) == y
  {
    assert x ^ (x ^ y) == y;
  }

  lemma LastXor()
    ensures Xor(0xdebb_20e3, ALL_ONES) == 0x2144_df1c
  {
  }

  // ---------------------------------------------------------------- algorithms

  /** The exponents of the generator polynomial, x^32 left out. */
  const TERMS: seq<nat> := [0, 1, 2, 4, 5, 7, 8, 10, 11, 12, 16, 22, 23, 26]

  function Or(x: bv32, y: bv32): bv32 { x | y }

  function Coefficient(n: nat): bv32
    requires n <= 31
  {
    1 << (31 - n)
  }

  /** The pattern of the first n terms. */
  function Pattern(n: nat): bv32 {
    if n == 0 then 0
    else if n == 1 then 0x80000000
    else if n == 2 then 0xc0000000
    else if n == 3 then 0xe0000000
    else if n == 4 then 0xe8000000
    else if n == 5 then 0xec000000
    else if n == 6 then 0xed000000
    else if n == 7 then 0xed800000
    else if n == 8 then 0xeda00000
    else if n == 9 then 0xedb00000
    else if n == 10 then 0xedb80000
    else if n == 11 then 0xedb88000
    else if n == 12 then 0xedb88200
    else if n == 13 then 0xedb88300
    else POLY
  }

  lemma NextTerm(n: nat)
    requires n < 14
    ensures Or(Pattern(n), Coefficient(TERMS[n])) == Pattern(n + 1)
  {
    if n < 4 {
      assert n == 0 || n == 1 || n == 2 || n == 3;
    } else if n < 8 {
      assert n == 4 || n == 5 || n == 6 || n == 7;
    } else if n < 12 {
      assert n == 8 || n == 9 || n == 10 || n == 11;
    }
  }

  method AssemblePolynomial() returns (poly: bv32)
    ensures poly == POLY
  {
    poly := 0;
    for n := 0 to |TERMS|
      invariant poly == Pattern(n)
    {
      NextTerm(n);
      poly := Or(poly, Coefficient(TERMS[n]));
    }
  }

  function Register(n: nat): bv32
    requires n < 256
  {
    n as bv32
  }

  method TableEntry(poly: bv32, n: bv32) returns (c: bv32)
    requires poly == POLY
    ensures c == Table(n)
  {
    c := n;
    ghost var entry := ShiftSteps(n, 8);
    for k := 0 to 8
      invariant ShiftSteps(c, 8 - k) == entry
    {
      c := if LowBit(c) == 1 then Xor(poly, Half(c)) else Half(c);
    }
  }

  /** The polynomial assembled from its terms, then eight steps per entry. */
  method MakeCrcTable() returns (table: array<bv32>)
    ensures fresh(table) && IsCrcTable(table)
  {
    var poly := AssemblePolynomial();
    table := new bv32[256];
    for n := 0 to 256
      invariant forall m :: 0 <= m < n ==> table[m] == Table(Register(m))
    {
      table[n] := TableEntry(poly, Register(n));
    }
  }

  ghost predicate IsCrcTable(table: array<bv32>)
    reads table
  {
    table.Length == 256 && forall n :: 0 <= n < 256 ==> table[n] == Table(Register(n))
  }

  /** The array index that the low byte of a register selects. */
  function Index(x: bv32): (i: nat)
    ensures i < 256 && Register(i) == LowByte(x)
  {
    LowByte(x) as nat
  }

  method Do1(table: array<bv32>, c: bv32, b: bv8) returns (r: bv32)
    requires IsCrcTable(table)
    ensures r == TableStep(c, b)
  {
    r := Xor(table[Index(Xor(c, Wide(b)))], DropByte(c));
  }

  /** The table-driven loop, eight bytes a turn and then one at a time. */
  method Crc32(table: array<bv32>, start: bv32, buf: seq<bv8>) returns (crc: bv32)
    requires IsCrcTable(table)
    ensures crc == Crc(start, buf)
  {
    crc := Xor(start, ALL_ONES);
    ghost var c0 := crc;
    var pos, len := 0, |buf|;
    assert buf[..0] == [];
    while len >= 8
      invariant pos + len == |buf| && len >= 0
      invariant crc == BitSerial(c0, MessageBits(buf[..pos]))
    {
      ghost var p := pos;
      OneByte(c0, buf, p); OneByte(c0, buf, p + 1); OneByte(c0, buf, p + 2); OneByte(c0, buf, p + 3);
      OneByte(c0, buf, p + 4); OneByte(c0, buf, p + 5); OneByte(c0, buf, p + 6); OneByte(c0, buf, p + 7);
      crc := Do1(table, crc, buf[pos]);
      crc := Do1(table, crc, buf[pos + 1]);
      crc := Do1(table, crc, buf[pos + 2]);
      crc := Do1(table, crc, buf[pos + 3]);
      crc := Do1(table, crc, buf[pos + 4]);
      crc := Do1(table, crc, buf[pos + 5]);
      crc := Do1(table, crc, buf[pos + 6]);
      crc := Do1(table, crc, buf[pos + 7]);
      pos, len := pos + 8, len - 8;
    }
    while len > 0
      invariant pos + len == |buf| && len >= 0
      invariant crc == BitSerial(c0, MessageBits(buf[..pos]))
    {
      OneByte(c0, buf, pos);
      crc := Do1(table, crc, buf[pos]);
      pos, len := pos + 1, len - 1;
    }
    assert buf[..pos] == buf;
    crc := Xor(crc, ALL_ONES);
  }
}
