/** The partition hash: CRC-64 bit by bit, and the table-driven form of the Go client. */
module Crc64 {

  /** The reflected polynomial. */
  const POLY: bv64 := 0x9a6c9329ac4bc9b5
  const ONES: bv64 := 0xffffffffffffffff

  /** Exclusive or, named so that proofs can treat it as a plain function. */
  function Xor(x: bv64, y: bv64): bv64
  {
    x ^ y
  }

  predicate Odd(x: bv64)
  {
    x & 1 == 1
  }

  function Half(x: bv64): bv64
  {
    x >> 1
  }

  function ShiftByte(x: bv64): bv64
  {
    x >> 8
  }

  function BitStep(crc: bv64): bv64
  {
    if Odd(crc) then Xor(Half(crc), POLY) else Half(crc)
  }

  function BitSteps(crc: bv64, n: nat): bv64
    decreases n
  {
    if n == 0 then crc else BitSteps(BitStep(crc), n - 1)
  }

  function Feed(crc: bv64, b: bv8): bv64
  {
    BitSteps(Xor(crc, b as bv64), 8)
  }

  /** Feeds a byte string to the register, eight bit steps to a byte. */
  function Run(crc: bv64, data: seq<bv8>): bv64
    decreases |data|
  {
    if data == [] then crc else Run(Feed(crc, data[0]), data[1..])
  }

  /** CRC-64 as its definition has it, bit by bit. */
  function Checksum(data: seq<bv8>): bv64
  {
    !Run(ONES, data)
  }

  lemma {:induction false} RunAppend(crc: bv64, data: seq<bv8>, b: bv8)
    ensures Run(crc, data + [b]) == Feed(Run(crc, data), b)
    decreases |data|
  {
    hide Feed;
    if data == [] {
      assert data + [b] == [b];
      assert Run(Feed(crc, b), []) == Feed(crc, b);
    } else {
      assert (data + [b])[1..] == data[1..] + [b];
      RunAppend(Feed(crc, data[0]), data[1..], b);
    }
  }

  lemma RawXorShift(x: bv64, y: bv64)
    ensures (x ^ y) >> 1 == (x >> 1) ^ (y >> 1)
  {
  }

  lemma RawXorParity(x: bv64, y: bv64)
    ensures (x ^ y) & 1 == 1 <==> (x & 1 == 1) != (y & 1 == 1)
  {
  }

  lemma XorHalf(x: bv64, y: bv64)
    ensures Half(Xor(x, y)) == Xor(Half(x), Half(y))
  {
    RawXorShift(x, y);
  }

  lemma XorOdd(x: bv64, y: bv64)
    ensures Odd(Xor(x, y)) <==> Odd(x) != Odd(y)
  {
    RawXorParity(x, y);
  }

  lemma XorAssociates(x: bv64, y: bv64, z: bv64)
    ensures Xor(Xor(x, y), z) == Xor(x, Xor(y, z))
  {
    assert (x ^ y) ^ z == x ^ (y ^ z);
  }

  lemma XorCommutes(x: bv64, y: bv64)
    ensures Xor(x, y) == Xor(y, x)
    ensures Xor(x, x) == 0 && Xor(x, 0) == x
  {
  }

  /** A bit step is linear over exclusive or. */
  lemma BitStepLinear(x: bv64, y: bv64)
    ensures BitStep(Xor(x, y)) == Xor(BitStep(x), BitStep(y))
  {
    hide Xor, Half, Odd;
    var a, b, p := Half(x), Half(y), POLY;
    XorHalf(x, y);
    XorOdd(x, y);
    XorCommutes(p, b);
    XorCommutes(p, p);
    XorCommutes(a, b);
    assert Xor(Xor(a, p), b) == Xor(Xor(a, b), p) by {
      XorAssociates(a, p, b);
      XorAssociates(a, b, p);
    }
    assert Xor(a, Xor(b, p)) == Xor(Xor(a, b), p) by {
      XorAssociates(a, b, p);
    }
    assert Xor(Xor(a, p), Xor(b, p)) == Xor(a, b) by {
      XorAssociates(a, p, Xor(b, p));
      XorAssociates(p, p, b);
      XorCommutes(0, b);
      XorCommutes(b, 0);
    }
  }

  lemma {:induction false} BitStepsLinear(x: bv64, y: bv64, n: nat)
    ensures BitSteps(Xor(x, y), n) == Xor(BitSteps(x, n), BitSteps(y, n))
    decreases n
  {
    hide BitStep, Xor;
    if n > 0 {
      BitStepLinear(x, y);
      BitStepsLinear(BitStep(x), BitStep(y), n - 1);
    }
  }

  /** Eight bit steps only shift a register whose low byte is clear. */
  lemma ClearByteShifts(x: bv64)
    requires x & 0xFF == 0
    ensures BitSteps(x, 8) == ShiftByte(x)
  {
    var x1, x2, x3, x4 := x >> 1, x >> 2, x >> 3, x >> 4;
    var x5, x6, x7, x8 := x >> 5, x >> 6, x >> 7, x >> 8;
    assert x & 1 == 0 && x1 & 1 == 0 && x2 & 1 == 0 && x3 & 1 == 0;
    assert x4 & 1 == 0 && x5 & 1 == 0 && x6 & 1 == 0 && x7 & 1 == 0;
    assert BitStep(x) == x1 && BitStep(x1) == x2 && BitStep(x2) == x3 && BitStep(x3) == x4;
    assert BitStep(x4) == x5 && BitStep(x5) == x6 && BitStep(x6) == x7 && BitStep(x7) == x8;
    assert BitSteps(x, 8) == BitSteps(x1, 7) == BitSteps(x2, 6) == BitSteps(x3, 5);
    assert BitSteps(x3, 5) == BitSteps(x4, 4) == BitSteps(x5, 3) == BitSteps(x6, 2);
    assert BitSteps(x6, 2) == BitSteps(x7, 1) == BitSteps(x8, 0) == x8;
  }

  function LowByte(x: bv64): bv8
  {
    (x & 0xFF) as bv8
  }

  /** The table entry for a byte: its image under eight bit steps. */
  function Entry(index: bv8): bv64
  {
    BitSteps(index as bv64, 8)
  }

  lemma WidenXor(i: bv8, j: bv8)
    ensures (i ^ j) as bv64 == Xor(i as bv64, j as bv64)
  {
  }

  lemma EntryXor(i: bv8, j: bv8)
    ensures Entry(i ^ j) == Xor(Entry(i), Entry(j))
  {
    WidenXor(i, j);
    hide BitSteps, Xor;
    BitStepsLinear(i as bv64, j as bv64, 8);
  }

  lemma SplitLowByte(crc: bv64, b: bv8)
    ensures var low := (LowByte(crc) ^ b) as bv64;
            var high := crc & !0xFF;
            && Xor(crc, b as bv64) == Xor(low, high)
            && high & 0xFF == 0 && ShiftByte(high) == ShiftByte(crc)
  {
  }

  /** One table step is eight bit steps. */
  lemma TableStep(crc: bv64, b: bv8)
    ensures Xor(Entry(LowByte(crc) ^ b), ShiftByte(crc)) == Feed(crc, b)
  {
    SplitLowByte(crc, b);
    hide BitSteps, Xor, LowByte, ShiftByte;
    var low, high := (LowByte(crc) ^ b) as bv64, crc & !0xFF;
    BitStepsLinear(low, high, 8);
    ClearByteShifts(high);
  }

  /** A table of the eight-step images of all bytes. */
  ghost predicate IsTable(table: seq<bv64>)
  {
    |table| == 256 && forall i :: 0 <= i < 256 ==> table[i] == Entry(i as bv8)
  }

  lemma TableLookup(table: seq<bv64>, index: bv8)
    requires IsTable(table)
    ensures 0 <= index as int < 256 && table[index as int] == Entry(index)
  {
    hide Entry;
    assert (index as int) as bv8 == index;
  }

  /** `crc64.MakeTable`. */
  method MakeTable() returns (table: seq<bv64>)
    ensures IsTable(table)
  {
    hide Xor;
    table := [];
    for i := 0 to 256
      invariant |table| == i
      invariant forall k :: 0 <= k < i ==> table[k] == Entry(k as bv8)
    {
      hide Entry;
      var crc := MakeEntry(i as bv8);
      table := table + [crc];
    }
  }

  method MakeEntry(index: bv8) returns (crc: bv64)
    ensures crc == Entry(index)
  {
    hide Xor, Half, Odd;
    crc := index as bv64;
    for j := 0 to 8
      invariant BitSteps(crc, 8 - j) == Entry(index)
    {
      if Odd(crc) {
        crc := Xor(Half(crc), POLY);
      } else {
        crc := Half(crc);
      }
    }
  }

  /** `crc64.Checksum`. */
  method TableChecksum(data: seq<bv8>, table: seq<bv64>) returns (crc: bv64)
    requires IsTable(table)
    ensures crc == Checksum(data)
  {
    hide BitSteps, Entry, LowByte, Xor, Feed, ShiftByte;
    crc := ONES;
    for i := 0 to |data|
      invariant crc == Run(ONES, data[..i])
    {
      assert data[..i + 1] == data[..i] + [data[i]];
      RunAppend(ONES, data[..i], data[i]);
      TableStep(crc, data[i]);
      var index := LowByte(crc) ^ data[i];
      TableLookup(table, index);
      crc := Xor(table[index as int], ShiftByte(crc));
    }
    assert data[..|data|] == data;
    crc := !crc;
  }
}
