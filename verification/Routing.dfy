/** From a 64-bit hash to a partition, as the three clients compute it. */
module Routing {

  import opened Arithmetic
  import opened Crc64
  import opened PythonCrc

  /** The unsigned integer a word denotes. */
  function Value(x: bv64, k: nat := 64): nat
    decreases k
  {
    if k == 0 then 0 else (if Odd(x) then 1 else 0) + 2 * Value(Half(x), k - 1)
  }

  lemma {:induction false} ValueAgrees(x: bv64, k: nat)
    ensures Agree(Value(x, k), x, k) && Value(x, k) < Pow2(k)
    decreases k
  {
    hide Half, Odd;
    if k > 0 {
      ValueAgrees(Half(x), k - 1);
    }
  }

  /** Go: unsigned remainder. */
  function GoIndex(hash: nat, count: int): int
    requires count > 0
  {
    hash % count
  }

  /** Python: floor remainder of an unbounded integer. */
  function PythonIndex(hash: int, count: int): int
    requires count > 0
  {
    hash % count
  }

  /** The signed reading of an unsigned 64-bit integer. */
  function Signed64(hash: int): int
  {
    if hash < TWO63 then hash else hash - TWO64
  }

  /** `Long.mod`: the remainder takes the sign of the dividend. */
  function TruncatedRemainder(a: int, count: int): int
    requires count > 0
  {
    if a >= 0 then a % count else -(-a % count)
  }

  /** Node: truncated remainder of the signed value, lifted out of the negatives. */
  method NodeIndex(hash: int, count: int) returns (pidx: int)
    requires count > 0
    ensures pidx == hash % count
  {
    pidx := TruncatedRemainder(hash, count);
    NegatedRemainder(hash, count);
    ghost var first := pidx;
    while pidx < 0 && pidx < count
      invariant pidx == first || (first < 0 && pidx == first + count)
      decreases -pidx
    {
      pidx := pidx + count;
    }
  }

  lemma NegatedRemainder(a: int, count: int)
    requires count > 0
    ensures a >= 0 ==> TruncatedRemainder(a, count) == a % count
    ensures a < 0 ==> -count < TruncatedRemainder(a, count) <= 0
    ensures a < 0 ==> a % count == TruncatedRemainder(a, count) + if -a % count == 0 then 0 else count
  {
    if a < 0 {
      var q, r := -a / count, -a % count;
      if r == 0 {
        ModuloUnique(a, count, -q, 0);
      } else {
        ModuloUnique(a, count, -q - 1, count - r);
      }
    }
  }

  lemma RemainderShift(a: int, t: int, count: int)
    requires count > 0
    ensures (a + t * count) % count == a % count
  {
    ModuloUnique(a + t * count, count, a / count + t, a % count);
  }

  lemma SameRemainder(a: int, b: int, count: int)
    requires count > 0 && a % count == b % count
    ensures (a - b) % count == 0
  {
    var q, t := a / count, b / count;
    assert a == count * q + a % count && b == count * t + a % count;
    assert count * q - count * t == count * (q - t);
    ModuloUnique(a - b, count, q - t, 0);
  }

  /** Moving the hash by 2^64 keeps every remainder exactly if the count divides 2^64. */
  lemma ShiftKeepsRemainder(hash: int, count: int)
    requires count > 0
    ensures (hash - TWO64) % count == hash % count <==> TWO64 % count == 0
  {
    if (hash - TWO64) % count == hash % count {
      SameRemainder(hash, hash - TWO64, count);
    }
    if TWO64 % count == 0 {
      DivisorShift(hash, TWO64, count);
    }
  }

  lemma DivisorShift(a: int, t: int, count: int)
    requires count > 0 && t % count == 0
    ensures (a - t) % count == a % count
  {
    var q := t / count;
    assert t == q * count;
    assert a + -q * count == a - t;
    RemainderShift(a, -q, count);
  }

  ghost predicate ClientsAgree(hash: nat, count: int)
    requires count > 0
  {
    forall p :: p % TWO64 == hash ==> GoIndex(hash, count) == PythonIndex(p, count) == PythonIndex(Signed64(hash), count)
  }

  lemma CongruentRemainder(p: int, hash: int, count: int)
    requires count > 0 && TWO64 % count == 0 && p % TWO64 == hash
    ensures p % count == hash % count
  {
    var q, t := TWO64 / count, p / TWO64;
    assert p == hash + (t * q) * count by {
      assert p == t * TWO64 + hash;
      assert TWO64 == q * count;
      assert t * (q * count) == (t * q) * count;
    }
    RemainderShift(hash, t * q, count);
  }

  /** All clients select the same partition for every hash exactly if the partition count
      divides 2^64. Node's result is the floor remainder of the signed hash. */
  lemma ClientsAgreeOnPartitions(count: int)
    requires count > 0
    ensures (forall hash: nat :: hash < TWO64 ==> ClientsAgree(hash, count)) <==> TWO64 % count == 0
  {
    if TWO64 % count == 0 {
      forall hash: nat | hash < TWO64
        ensures ClientsAgree(hash, count)
      {
        forall p | p % TWO64 == hash
          ensures GoIndex(hash, count) == PythonIndex(p, count) == PythonIndex(Signed64(hash), count)
        {
          CongruentRemainder(p, hash, count);
          ShiftKeepsRemainder(hash, count);
        }
      }
    } else {
      var h: nat := TWO63;
      ShiftKeepsRemainder(h, count);
      assert PythonIndex(h, count) != PythonIndex(Signed64(h), count);
      assert !ClientsAgree(h, count);
    }
  }

  /** `&` on non-negative integers. */
  function And(a: nat, b: nat): nat
  {
    if a == 0 || b == 0 then 0
    else 2 * And(a / 2, b / 2) + if a % 2 == 1 && b % 2 == 1 then 1 else 0
  }

  /** The Go client's test of a configuration's partition count. */
  predicate IsPartitionCountValid(count: int)
  {
    count >= 2 && And(count, count - 1) == 0
  }

  ghost predicate PowerOfTwo(n: int)
  {
    exists k: nat :: n == Pow2(k)
  }

  lemma {:induction false} AndItself(n: nat)
    ensures And(n, n) == n
  {
    if n > 0 {
      AndItself(n / 2);
    }
  }

  lemma {:induction false} PredecessorSharesNoBit(n: nat)
    requires n > 0
    ensures And(n, n - 1) == 0 <==> PowerOfTwo(n)
  {
    if n == 1 {
      assert Pow2(0) == 1;
    } else if n % 2 == 1 {
      AndItself(n / 2);
      assert (n - 1) / 2 == n / 2;
      forall k: nat
        ensures n != Pow2(k)
      {
        assert k > 0 ==> Pow2(k) == 2 * Pow2(k - 1);
      }
    } else {
      PredecessorSharesNoBit(n / 2);
      assert (n - 1) / 2 == n / 2 - 1;
      if k: nat :| n / 2 == Pow2(k) {
        assert n == Pow2(k + 1);
      }
      if k: nat :| n == Pow2(k) {
        assert k > 0 && n / 2 == Pow2(k - 1);
      }
    }
  }

  lemma ValidCountIsEven(count: int)
    requires IsPartitionCountValid(count)
    ensures count % 2 == 0
  {
    PredecessorSharesNoBit(count);
    var k: nat :| count == Pow2(k);
    assert k > 0;
  }

  lemma {:induction false} PowersMultiply(j: nat, k: nat)
    ensures Pow2(j + k) == Pow2(j) * Pow2(k)
  {
    if j > 0 {
      PowersMultiply(j - 1, k);
    }
  }

  lemma {:induction false} PowersGrow(j: nat, k: nat)
    requires j < k
    ensures Pow2(j) < Pow2(k)
    decreases k
  {
    if j < k - 1 {
      PowersGrow(j, k - 1);
    }
  }

  lemma OddProduct(c: int, m: int)
    requires c % 2 == 1 && m % 2 == 1
    ensures c * m % 2 == 1
  {
    var a, b := c / 2, m / 2;
    assert c * m == (2 * a + 1) * (2 * b + 1) == 2 * (2 * a * b + a + b) + 1;
  }

  lemma HalveFactor(c: int, m: int, p: int)
    requires c % 2 == 0 && c * m == 2 * p
    ensures c / 2 * m == p
  {
    var h := c / 2;
    assert c == 2 * h;
    assert (2 * h) * m == 2 * (h * m);
  }

  /** The divisors of a power of two are powers of two. */
  lemma {:induction false} DivisorOfPower(c: int, m: int, k: nat)
    requires c > 0 && m > 0 && c * m == Pow2(k)
    ensures PowerOfTwo(c)
    decreases k
  {
    if k == 0 {
      if c > 1 {
        MultipleAtLeast(m, c - 1);
      }
      assert c == 1 == Pow2(0);
    } else if c % 2 == 0 {
      HalveFactor(c, m, Pow2(k - 1));
      DivisorOfPower(c / 2, m, k - 1);
      var j: nat :| c / 2 == Pow2(j);
      assert c == Pow2(j + 1);
    } else {
      if m % 2 == 1 {
        OddProduct(c, m);
      }
      HalveFactor(m, c, Pow2(k - 1));
      DivisorOfPower(c, m / 2, k - 1);
    }
  }

  /** The counts the Go client accepts are the powers of two from 2 on, and up to 2^64 these
      are exactly the counts from 2 on for which all clients agree on every hash. */
  lemma ValidCountsRouteAlike(count: int)
    requires 2 <= count <= TWO64
    ensures IsPartitionCountValid(count) <==> PowerOfTwo(count)
    ensures IsPartitionCountValid(count) <==> forall hash: nat :: hash < TWO64 ==> ClientsAgree(hash, count)
  {
    hide Pow2;
    PredecessorSharesNoBit(count);
    ClientsAgreeOnPartitions(count);
    Powers();
    if PowerOfTwo(count) {
      var k: nat :| count == Pow2(k);
      if k > 64 {
        PowersGrow(64, k);
      }
      PowersMultiply(k, 64 - k);
      ModuloUnique(TWO64, count, Pow2(64 - k), 0);
    }
    if TWO64 % count == 0 {
      assert count * (TWO64 / count) == Pow2(64);
      DivisorOfPower(count, TWO64 / count, 64);
    }
  }

  /** For every key, the hash each client computes leads it to the same partition. */
  lemma KeysRouteAlike(key: seq<bv8>, pythonHash: int, count: int)
    requires Agree(pythonHash, Checksum(key), 64)
    requires count <= TWO64 && IsPartitionCountValid(count)
    ensures var hash := Value(Checksum(key));
            GoIndex(hash, count) == PythonIndex(pythonHash, count) == PythonIndex(Signed64(hash), count)
  {
    hide Pow2, Checksum, Value, Agree, And;
    var x := Checksum(key);
    var hash := Value(x);
    ValueAgrees(x, 64);
    Powers();
    AgreeIsCongruence(pythonHash, hash, x, 64);
    ValidCountsRouteAlike(count);
    assert ClientsAgree(hash, count);
    assert pythonHash % TWO64 == hash;
    assert PythonIndex(pythonHash, count) == PythonIndex(pythonHash, count);
  }
}
