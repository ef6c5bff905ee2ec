/** The hash of the Python client: CRC-64 over unbounded, signed integers. */
module PythonCrc {

  import opened Arithmetic
  import opened Crc64

  const TWO56: int := 0x100000000000000
  const TWO63: int := 0x8000000000000000
  const TWO64: int := 0x1_0000000000000000

  /** Python's `^`: exclusive or of two's complement integers of unbounded width. */
  function PyXor(a: int, b: int): int
    decreases (if a < 0 then -a - 1 else a) + (if b < 0 then -b - 1 else b)
  {
    if (a == 0 || a == -1) && (b == 0 || b == -1) then if a == b then 0 else -1
    else 2 * PyXor(a / 2, b / 2) + (a + b) % 2
  }

  /** The integer and the word have the same low `k` bits; for k = 64 they are congruent
      modulo 2^64. */
  predicate Agree(a: int, x: bv64, k: nat)
    decreases k
  {
    k == 0 || ((a % 2 == 1 <==> Odd(x)) && Agree(a / 2, Half(x), k - 1))
  }

  function Pow2(k: nat): (r: int)
    ensures r > 0
  {
    if k == 0 then 1 else 2 * Pow2(k - 1)
  }

  /** Agreement determines the integer modulo 2^k, and is the same for all congruent ones. */
  lemma {:induction false} AgreeIsCongruence(a: int, b: int, x: bv64, k: nat)
    requires Agree(a, x, k)
    ensures Agree(b, x, k) <==> a % Pow2(k) == b % Pow2(k)
    decreases k
  {
    hide Half, Odd;
    if k > 0 {
      AgreeIsCongruence(a / 2, b / 2, Half(x), k - 1);
      HalvesModulo(a, Pow2(k - 1));
      HalvesModulo(b, Pow2(k - 1));
    }
  }

  lemma HalvesModulo(a: int, p: nat)
    requires p > 0
    ensures a % (2 * p) == 2 * (a / 2 % p) + a % 2
  {
    var q, r := a / 2 / p, a / 2 % p;
    assert a / 2 == q * p + r;
    assert a == (2 * p) * q + (2 * r + a % 2);
    ModuloUnique(a, 2 * p, q, 2 * r + a % 2);
  }

  lemma PyXorBits(a: int, b: int)
    ensures PyXor(a, b) % 2 == 1 <==> (a % 2 == 1) != (b % 2 == 1)
    ensures PyXor(a, b) / 2 == PyXor(a / 2, b / 2)
  {
    PyXorUnfolds(a, b);
    hide PyXor;
    ParityOfSum(a, b);
    BitsOf(PyXor(a / 2, b / 2), (a + b) % 2);
  }

  lemma PyXorUnfolds(a: int, b: int)
    ensures PyXor(a, b) == 2 * PyXor(a / 2, b / 2) + (a + b) % 2
  {
    if (a == 0 || a == -1) && (b == 0 || b == -1) {
      assert a / 2 == a && b / 2 == b;
    }
  }

  lemma BitsOf(t: int, e: int)
    requires 0 <= e < 2
    ensures (2 * t + e) % 2 == e && (2 * t + e) / 2 == t
  {
  }

  lemma ParityOfSum(a: int, b: int)
    ensures (a + b) % 2 == 1 <==> (a % 2 == 1) != (b % 2 == 1)
  {
  }

  lemma {:induction false} AgreeXor(a: int, x: bv64, b: int, y: bv64, k: nat)
    requires Agree(a, x, k) && Agree(b, y, k)
    ensures Agree(PyXor(a, b), Xor(x, y), k)
    decreases k
  {
    hide Xor, Half, Odd, PyXor;
    if k > 0 {
      AgreeXor(a / 2, Half(x), b / 2, Half(y), k - 1);
      XorHalf(x, y);
      XorOdd(x, y);
      PyXorBits(a, b);
    }
  }

  /** Exclusive or stays within the width of its operands. */
  lemma {:induction false} XorRange(a: int, b: int, k: nat)
    requires -Pow2(k) <= a < Pow2(k) && -Pow2(k) <= b < Pow2(k)
    ensures -Pow2(k) <= PyXor(a, b) < Pow2(k)
    decreases k
  {
    if k > 0 {
      XorRange(a / 2, b / 2, k - 1);
    }
  }

  lemma {:induction false} XorComplement(a: int)
    ensures PyXor(a, -1) == -a - 1
    decreases if a < 0 then -a else a
  {
    PyXorUnfolds(a, -1);
    hide PyXor;
    if a == 0 || a == -1 {
      XorEnds();
    } else {
      XorComplement(a / 2);
      assert -1 / 2 == -1;
      assert (a + -1) % 2 == 1 - a % 2;
    }
  }

  lemma XorEnds()
    ensures PyXor(0, -1) == -1 && PyXor(-1, -1) == 0
  {
  }

  function Shifted(x: bv64, k: nat): bv64
    decreases k
  {
    if k == 0 then x else Shifted(Half(x), k - 1)
  }

  lemma {:induction false} ShiftedTwice(x: bv64, m: nat, n: nat)
    ensures Shifted(x, m + n) == Shifted(Shifted(x, m), n)
    decreases m
  {
    hide Half;
    if m > 0 {
      ShiftedTwice(Half(x), m - 1, n);
    }
  }

  function Quarter(x: bv64): bv64
  {
    x >> 2
  }

  function ShiftNibble(x: bv64): bv64
  {
    x >> 4
  }

  lemma TwoHalves(x: bv64)
    ensures Half(Half(x)) == Quarter(x)
  {
  }

  lemma TwoQuarters(x: bv64)
    ensures Quarter(Quarter(x)) == ShiftNibble(x)
  {
  }

  lemma TwoNibbles(x: bv64)
    ensures ShiftNibble(ShiftNibble(x)) == ShiftByte(x)
  {
  }

  lemma FourHalves(x: bv64)
    ensures Half(Half(Half(Half(x)))) == ShiftNibble(x)
  {
    hide Half, Quarter, ShiftNibble;
    TwoHalves(x);
    TwoHalves(Quarter(x));
    TwoQuarters(x);
  }

  lemma EightHalves(x: bv64)
    ensures Half(Half(Half(Half(Half(Half(Half(Half(x)))))))) == ShiftByte(x)
  {
    hide Half, ShiftNibble, ShiftByte;
    FourHalves(x);
    FourHalves(ShiftNibble(x));
    TwoNibbles(x);
  }

  lemma EightBytes(x: bv64)
    ensures ShiftByte(ShiftByte(ShiftByte(ShiftByte(ShiftByte(ShiftByte(ShiftByte(ShiftByte(x)))))))) == 0
  {
    assert (((((((x >> 8) >> 8) >> 8) >> 8) >> 8) >> 8) >> 8) >> 8 == 0;
  }

  lemma ShiftedByte(x: bv64, n: nat)
    ensures Shifted(x, 8 + n) == Shifted(ShiftByte(x), n)
  {
    hide Half, ShiftByte;
    ShiftedTwice(x, 8, n);
    EightHalves(x);
    var x4 := Half(Half(Half(Half(x))));
    assert Shifted(x, 8) == Shifted(Half(x), 7) == Shifted(Half(Half(x)), 6) == Shifted(Half(Half(Half(x))), 5);
    assert Shifted(Half(Half(Half(x))), 5) == Shifted(x4, 4) == Shifted(Half(x4), 3) == Shifted(Half(Half(x4)), 2);
  }

  /** A word has no bits left after 64 shifts. */
  lemma ShiftedOut(x: bv64)
    ensures Shifted(x, 64) == 0
  {
    hide ShiftByte, Half;
    EightBytes(x);
    var x1 := ShiftByte(x);
    var x2 := ShiftByte(x1);
    var x3 := ShiftByte(x2);
    var x4 := ShiftByte(x3);
    var x5 := ShiftByte(x4);
    var x6 := ShiftByte(x5);
    ShiftedByte(x, 56);
    ShiftedByte(x1, 48);
    ShiftedByte(x2, 40);
    ShiftedByte(x3, 32);
    ShiftedByte(x4, 24);
    ShiftedByte(x5, 16);
    ShiftedByte(x6, 8);
    ShiftedByte(ShiftByte(x6), 0);
  }

  lemma HalfOfZero()
    ensures Half(0) == 0 && !Odd(0)
  {
  }

  /** Above its highest bit a word agrees with zeros. */
  lemma {:induction false} AgreeExtend(a: int, x: bv64, k: nat, n: nat)
    requires Agree(a, x, k) && 0 <= a < Pow2(k) && Shifted(x, k) == 0 && k <= n
    ensures Agree(a, x, n)
    decreases n
  {
    hide Half, Odd;
    if n > 0 {
      if k == 0 {
        HalfOfZero();
        AgreeExtend(0, 0, 0, n - 1);
      } else {
        AgreeExtend(a / 2, Half(x), k - 1, n - 1);
      }
    }
  }

  function UnsignedRightShift(val: int, n: nat): int
  {
    (if val >= 0 then val else val + TWO64) / Pow2(n)
  }

  lemma Powers()
    ensures Pow2(1) == 2 && Pow2(8) == 256 && Pow2(56) == TWO56 && Pow2(63) == TWO63 && Pow2(64) == TWO64
  {
    assert Pow2(8) == 256;
    assert Pow2(16) == 256 * 256 by {
      assert Pow2(12) == 256 * 16;
    }
    assert Pow2(24) == 0x1000000 by {
      assert Pow2(20) == 0x100000;
    }
    assert Pow2(32) == 0x100000000 by {
      assert Pow2(28) == 0x10000000;
    }
    assert Pow2(40) == 0x10000000000 by {
      assert Pow2(36) == 0x1000000000;
    }
    assert Pow2(48) == 0x1000000000000 by {
      assert Pow2(44) == 0x100000000000;
    }
    assert Pow2(56) == 0x100000000000000 by {
      assert Pow2(52) == 0x10000000000000;
    }
    assert Pow2(60) == 0x1000000000000000;
  }

  /** The register's range: a signed word, or the unsigned word of ones it starts with. */
  predicate InRange(a: int)
  {
    -TWO63 <= a < TWO64
  }

  predicate Signed(a: int)
  {
    -TWO63 <= a < TWO63
  }

  /** `unsigned_right_shift(val, 1)` on an integer in range is a shift of its word. */
  lemma HalfAgrees(a: int, x: bv64)
    requires InRange(a) && Agree(a, x, 64)
    ensures var r := UnsignedRightShift(a, 1);
            0 <= r < TWO63 && Agree(r, Half(x), 64)
  {
    hide Half, Odd, Pow2;
    Powers();
    var u := if a >= 0 then a else a + TWO64;
    assert a % TWO64 == u % TWO64;
    AgreeIsCongruence(a, u, x, 64);
    assert Agree(u / 2, Half(x), 63);
    ShiftedOut(x);
    assert Shifted(Half(x), 63) == 0;
    AgreeExtend(u / 2, Half(x), 63, 64);
  }

  const POLYNOMIAL: int := 0x9a6c9329ac4bc9b5 - TWO64

  function PyStep(crc: int): int
  {
    if crc % 2 == 1 then PyXor(UnsignedRightShift(crc, 1), POLYNOMIAL) else UnsignedRightShift(crc, 1)
  }

  lemma AgreeByte(a: int, x: bv64, n: nat)
    ensures Agree(a, x, 8 + n) <==> Agree(a, x, 8) && Agree(a / 256, ShiftByte(x), n)
  {
    hide Half, Odd, ShiftByte;
    EightHalves(x);
    var x4, a4 := Half(Half(Half(Half(x)))), a / 2 / 2 / 2 / 2;
    AgreeNibble(a, x, 4);
    AgreeNibble(a, x, 4 + n);
    AgreeNibble(a4, x4, 0);
    AgreeNibble(a4, x4, n);
    assert a4 / 2 / 2 / 2 / 2 == a / 256;
  }

  lemma AgreeNibble(a: int, x: bv64, n: nat)
    ensures Agree(a, x, 4 + n) <==> Agree(a, x, 4) && Agree(a / 2 / 2 / 2 / 2, Half(Half(Half(Half(x)))), n)
  {
    hide Half, Odd;
    var x1, x2, x3 := Half(x), Half(Half(x)), Half(Half(Half(x)));
    assert Agree(a, x, 4) <==> (a % 2 == 1 <==> Odd(x)) && Agree(a / 2, x1, 3);
    assert Agree(a / 2, x1, 3) <==> (a / 2 % 2 == 1 <==> Odd(x1)) && Agree(a / 2 / 2, x2, 2);
    assert Agree(a / 2 / 2, x2, 2) <==> (a / 2 / 2 % 2 == 1 <==> Odd(x2)) && Agree(a / 2 / 2 / 2, x3, 1);
    assert Agree(a / 2, x1, 3 + n) <==> (a / 2 % 2 == 1 <==> Odd(x1)) && Agree(a / 2 / 2, x2, 2 + n);
    assert Agree(a / 2 / 2, x2, 2 + n) <==> (a / 2 / 2 % 2 == 1 <==> Odd(x2)) && Agree(a / 2 / 2 / 2, x3, 1 + n);
  }

  lemma PolynomialAgrees()
    ensures Agree(POLYNOMIAL, POLY, 64)
  {
    assert Agree(-7319313487190308427, 0x9a6c9329ac4bc9b5, 8);
    assert Agree(-28591068309337143, 0x9a6c9329ac4bc9, 8);
    assert Agree(-111683860583349, 0x9a6c9329ac4b, 8);
    assert Agree(-436265080404, 0x9a6c9329ac, 8);
    assert Agree(-1704160471, 0x9a6c9329, 8);
    assert Agree(-6656877, 0x9a6c93, 8);
    assert Agree(-26004, 0x9a6c, 8);
    assert Agree(-102, 0x9a, 8);
    AgreeByte(-7319313487190308427, 0x9a6c9329ac4bc9b5, 56);
    AgreeByte(-28591068309337143, 0x9a6c9329ac4bc9, 48);
    AgreeByte(-111683860583349, 0x9a6c9329ac4b, 40);
    AgreeByte(-436265080404, 0x9a6c9329ac, 32);
    AgreeByte(-1704160471, 0x9a6c9329, 24);
    AgreeByte(-6656877, 0x9a6c93, 16);
    AgreeByte(-26004, 0x9a6c, 8);
  }

  lemma OnesAgree()
    ensures Agree(-1, ONES, 64)
  {
    assert Agree(-1, 0xffffffffffffffff, 8);
    assert Agree(-1, 0xffffffffffffff, 8);
    assert Agree(-1, 0xffffffffffff, 8);
    assert Agree(-1, 0xffffffffff, 8);
    assert Agree(-1, 0xffffffff, 8);
    assert Agree(-1, 0xffffff, 8);
    assert Agree(-1, 0xffff, 8);
    assert Agree(-1, 0xff, 8);
    AgreeByte(-1, 0xffffffffffffffff, 56);
    AgreeByte(-1, 0xffffffffffffff, 48);
    AgreeByte(-1, 0xffffffffffff, 40);
    AgreeByte(-1, 0xffffffffff, 32);
    AgreeByte(-1, 0xffffffff, 24);
    AgreeByte(-1, 0xffffff, 16);
    AgreeByte(-1, 0xffff, 8);
  }

  lemma StepAgrees(a: int, x: bv64)
    requires InRange(a) && Agree(a, x, 64)
    ensures Signed(PyStep(a)) && Agree(PyStep(a), BitStep(x), 64)
  {
    hide Half, Odd, Xor, UnsignedRightShift;
    HalfAgrees(a, x);
    PolynomialAgrees();
    var r := UnsignedRightShift(a, 1);
    AgreeXor(r, Half(x), POLYNOMIAL, POLY, 64);
    Powers();
    XorRange(r, POLYNOMIAL, 63);
    assert a % 2 == 1 <==> Odd(x);
  }

  function PySteps(crc: int, n: nat): int
    decreases n
  {
    if n == 0 then crc else PySteps(PyStep(crc), n - 1)
  }

  lemma {:induction false} StepsAgree(a: int, x: bv64, n: nat)
    requires Signed(a) && Agree(a, x, 64)
    ensures Signed(PySteps(a, n)) && Agree(PySteps(a, n), BitSteps(x, n), 64)
    decreases n
  {
    hide PyStep, BitStep, Agree;
    if n > 0 {
      StepAgrees(a, x);
      StepsAgree(PyStep(a), BitStep(x), n - 1);
    }
  }

  lemma OctetBits(b: bv8)
    ensures (b as int) % 2 == 1 <==> Odd(b as bv64)
    ensures (b as int) / 2 == (b >> 1) as int && Half(b as bv64) == (b >> 1) as bv64
  {
  }

  /** A byte agrees with the word it widens to. */
  lemma {:induction false} OctetAgrees(b: bv8, k: nat)
    ensures Agree(b as int, b as bv64, k)
    decreases k
  {
    hide Half, Odd;
    if k > 0 {
      OctetBits(b);
      OctetAgrees(b >> 1, k - 1);
    }
  }

  /** An entry of Python's table agrees with the word entry. */
  lemma EntryAgrees(b: bv8)
    ensures Signed(PySteps(b as int, 8)) && Agree(PySteps(b as int, 8), Entry(b), 64)
  {
    hide Agree, PySteps, BitSteps;
    OctetAgrees(b, 64);
    StepsAgree(b as int, b as bv64, 8);
  }

  method PopulateTable() returns (table: seq<int>)
    ensures |table| == 256 && forall i :: 0 <= i < 256 ==> table[i] == PySteps(i, 8)
    ensures forall b: bv8 :: EntryStored(table, b)
  {
    table := seq(256, _ => 0);
    for i := 0 to 256
      invariant |table| == 256
      invariant forall k :: 0 <= k < i ==> table[k] == PySteps(k, 8)
    {
      var crc := i;
      for j := 0 to 8
        invariant PySteps(crc, 8 - j) == PySteps(i, 8)
      {
        if crc % 2 == 1 {
          crc := UnsignedRightShift(crc, 1);
          crc := PyXor(crc, POLYNOMIAL);
        } else {
          crc := UnsignedRightShift(crc, 1);
        }
      }
      table := table[i := crc];
    }
    TableStored(table);
  }

  /** The table's entry for a byte, signed or not, agrees with the word entry. */
  ghost predicate EntryStored(table: seq<int>, b: bv8)
    requires |table| == 256
  {
    Signed(table[b as int]) && Agree(table[b as int], Entry(b), 64)
  }

  lemma TableStored(table: seq<int>)
    requires |table| == 256 && forall i :: 0 <= i < 256 ==> table[i] == PySteps(i, 8)
    ensures forall b: bv8 :: EntryStored(table, b)
  {
    hide Agree, PySteps, Entry;
    forall b: bv8
      ensures EntryStored(table, b)
    {
      EntryAgrees(b);
      assert table[b as int] == PySteps(b as int, 8);
    }
  }

  lemma ClearByteBits(x: bv64)
    requires x & 0xFF == 0
    ensures !Odd(x) && !Odd(Half(x)) && !Odd(Half(Half(x))) && !Odd(Half(Half(Half(x))))
    ensures var y := Half(Half(Half(Half(x))));
            !Odd(y) && !Odd(Half(y)) && !Odd(Half(Half(y))) && !Odd(Half(Half(Half(y))))
  {
    assert x & 1 == 0 && (x >> 1) & 1 == 0 && ((x >> 1) >> 1) & 1 == 0 && (((x >> 1) >> 1) >> 1) & 1 == 0;
    var y := (((x >> 1) >> 1) >> 1) >> 1;
    assert y & 1 == 0 && (y >> 1) & 1 == 0 && ((y >> 1) >> 1) & 1 == 0 && (((y >> 1) >> 1) >> 1) & 1 == 0;
  }

  lemma ClearByteAgrees(x: bv64)
    requires x & 0xFF == 0
    ensures Agree(0, x, 8)
  {
    ClearByteBits(x);
    hide Half, Odd;
    var y := Half(Half(Half(Half(x))));
    AgreeNibble(0, x, 4);
    assert Agree(0, Half(Half(x)), 2);
    assert Agree(0, Half(Half(y)), 2);
  }

  lemma {:induction false} XorZero(a: int)
    ensures PyXor(a, 0) == a
    decreases if a < 0 then -a else a
  {
    if a != 0 && a != -1 {
      XorZero(a / 2);
    }
  }

  lemma DropHighBytes(x: bv64, b: bv8)
    ensures (x & !0xFF) & 0xFF == 0
    ensures Xor(Xor(b as bv64, x), x & !0xFF) == (LowByte(x) ^ b) as bv64
  {
  }

  /** Below `w` cleared of its high bytes there is one integer of eight bits. */
  lemma LowByteAgrees(i: int, w: bv64, high: bv64, v: int)
    requires Agree(i, w, 64) && Agree(0, high, 8)
    requires 0 <= v < 256 && Agree(v, Xor(w, high), 8)
    ensures i % 256 == v
  {
    hide Xor, Half, Odd, PyXor, Agree, Pow2;
    AgreeByte(i, w, 56);
    AgreeXor(i, w, 0, high, 8);
    XorZero(i);
    Powers();
    AgreeIsCongruence(i, v, Xor(w, high), 8);
  }

  /** The table index `(c ^ crc) & 0xFF` is the byte the other clients index with. */
  lemma IndexAgrees(a: int, x: bv64, b: bv8)
    requires Agree(a, x, 64)
    ensures PyXor(b as int, a) % 256 == (LowByte(x) ^ b) as int
  {
    DropHighBytes(x, b);
    ClearByteAgrees(x & !0xFF);
    hide Xor, LowByte, PyXor, Agree;
    OctetAgrees(b, 64);
    AgreeXor(b as int, b as bv64, a, x, 64);
    var y := LowByte(x) ^ b;
    OctetAgrees(y, 8);
    LowByteAgrees(PyXor(b as int, a), Xor(b as bv64, x), x & !0xFF, y as int);
  }

  /** `unsigned_right_shift(val, 8)` on an integer in range is a byte shift of its word. */
  lemma ShiftByteAgrees(a: int, x: bv64)
    requires InRange(a) && Agree(a, x, 64)
    ensures var r := UnsignedRightShift(a, 8);
            0 <= r < TWO63 && Agree(r, ShiftByte(x), 64)
  {
    hide Half, Odd, ShiftByte, Pow2, Agree, Shifted;
    Powers();
    var u := if a >= 0 then a else a + TWO64;
    assert a % TWO64 == u % TWO64;
    AgreeIsCongruence(a, u, x, 64);
    AgreeByte(u, x, 56);
    ShiftedOut(x);
    ShiftedByte(x, 56);
    AgreeExtend(u / 256, ShiftByte(x), 56, 64);
  }

  /** One iteration of `crc64` agrees with eight bit steps. */
  lemma FeedAgrees(a: int, x: bv64, b: bv8, table: seq<int>)
    requires InRange(a) && Agree(a, x, 64)
    requires |table| == 256 && forall i :: 0 <= i < 256 ==> table[i] == PySteps(i, 8)
    ensures var a' := PyXor(table[PyXor(b as int, a) % 256], UnsignedRightShift(a, 8));
            Signed(a') && Agree(a', Feed(x, b), 64)
  {
    hide Xor, Half, Odd, LowByte, PyXor, UnsignedRightShift, BitSteps, PySteps, Feed, Agree, ShiftByte, Pow2;
    var y := LowByte(x) ^ b;
    IndexAgrees(a, x, b);
    OctetAgrees(y, 64);
    StepsAgree(y as int, y as bv64, 8);
    ShiftByteAgrees(a, x);
    var t, r := PySteps(y as int, 8), UnsignedRightShift(a, 8);
    AgreeXor(t, Entry(y), r, ShiftByte(x), 64);
    Powers();
    XorRange(t, r, 63);
    TableStep(x, b);
  }

  /** The hash of `data[offset:offset + length]` is congruent modulo 2^64 to the CRC-64 the
      other clients compute; it is a signed word, or -2^64 for an empty slice. */
  method HashSlice(data: seq<bv8>, offset: nat, length: nat, table: seq<int>) returns (hash: int)
    requires |table| == 256 && forall i :: 0 <= i < 256 ==> table[i] == PySteps(i, 8)
    ensures Agree(hash, Checksum(Slice(data, offset, length)), 64)
    ensures if Slice(data, offset, length) == [] then hash == -TWO64 else Signed(hash)
  {
    hide Xor, PyXor, UnsignedRightShift, PySteps, Feed, Agree, Pow2;
    var crc := TWO64 - 1;
    var bytes := Slice(data, offset, length);
    ghost var x := ONES;
    OnesAgree();
    Powers();
    AgreeIsCongruence(-1, TWO64 - 1, ONES, 64);
    for i := 0 to |bytes|
      invariant InRange(crc) && Agree(crc, x, 64) && x == Run(ONES, bytes[..i])
      invariant if i == 0 then crc == TWO64 - 1 else Signed(crc)
    {
      FeedAgrees(crc, x, bytes[i], table);
      RunAppend(ONES, bytes[..i], bytes[i]);
      assert bytes[..i + 1] == bytes[..i] + [bytes[i]];
      crc := PyXor(table[PyXor(bytes[i] as int, crc) % 256], UnsignedRightShift(crc, 8));
      x := Feed(x, bytes[i]);
    }
    assert bytes[..|bytes|] == bytes;
    AgreeXor(crc, x, -1, ONES, 64);
    XorComplement(crc);
    ComplementIsXor(x);
    hash := -crc - 1;
  }

  lemma ComplementIsXor(x: bv64)
    ensures Xor(x, ONES) == !x
  {
  }

  /** Python's `data[offset:offset + length]`. */
  function Slice(data: seq<bv8>, offset: nat, length: nat): seq<bv8>
  {
    var end := if offset + length < |data| then offset + length else |data|;
    if offset < end then data[offset..end] else []
  }
}
