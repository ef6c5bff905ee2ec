/** Sums, means and deviations of real sequences. Products are named functions, so that the
    proofs about sequences need not look inside them. */
module Deviation {

  function Times(x: real, y: real): real
  {
    x * y
  }

  function Square(x: real): (y: real)
    ensures y >= 0.0
  {
    x * x
  }

  function Sum(v: seq<real>): real
  {
    if v == [] then 0.0 else Sum(v[..|v| - 1]) + v[|v| - 1]
  }

  function Squares(v: seq<real>): (q: real)
    ensures q >= 0.0
  {
    if v == [] then 0.0 else Squares(v[..|v| - 1]) + Square(v[|v| - 1])
  }

  function Shifted(v: seq<real>, c: real): seq<real>
  {
    seq(|v|, i requires 0 <= i < |v| => v[i] + c)
  }

  function Scaled(v: seq<real>, a: real): seq<real>
  {
    seq(|v|, i requires 0 <= i < |v| => Times(v[i], a))
  }

  function Mean(v: seq<real>): real
    requires v != []
  {
    Sum(v) / |v| as real
  }

  /** The differences from the mean. */
  function Deviations(v: seq<real>): seq<real>
    requires v != []
  {
    Shifted(v, -Mean(v))
  }

  lemma Last(v: seq<real>, x: real)
    ensures Sum(v + [x]) == Sum(v) + x && Squares(v + [x]) == Squares(v) + Square(x)
  {
    hide Square;
    assert (v + [x])[..|v|] == v;
  }

  lemma {:induction false} SumConcat(v: seq<real>, w: seq<real>)
    ensures Sum(v + w) == Sum(v) + Sum(w) && Squares(v + w) == Squares(v) + Squares(w)
  {
    hide Square;
    if w == [] {
      assert v + w == v;
    } else {
      var n := |w| - 1;
      assert v + w == (v + w[..n]) + [w[n]];
      Last(v + w[..n], w[n]);
      SumConcat(v, w[..n]);
    }
  }

  lemma {:induction false} SumShifted(v: seq<real>, c: real)
    ensures Sum(Shifted(v, c)) == Sum(v) + Times(|v| as real, c)
  {
    if v != [] {
      var n := |v| - 1;
      SumShifted(v[..n], c);
      assert Shifted(v, c)[..n] == Shifted(v[..n], c);
      assert Times(n as real + 1.0, c) == Times(n as real, c) + c;
    }
  }

  lemma ScaledStep(a: real, s: real, q: real, x: real)
    ensures Times(a, s) + Times(x, a) == Times(a, s + x)
    ensures Times(Square(a), q) + Square(Times(x, a)) == Times(Square(a), q + Square(x))
  {
    var b := a * a;
    assert (x * a) * (x * a) == b * (x * x);
    assert b * (q + x * x) == b * q + b * (x * x);
  }

  lemma {:induction false} SumScaled(v: seq<real>, a: real)
    ensures Sum(Scaled(v, a)) == Times(a, Sum(v))
    ensures Squares(Scaled(v, a)) == Times(Square(a), Squares(v))
  {
    hide Times, Square;
    if v == [] {
      Zero(a);
      Zero(Square(a));
    } else {
      var n := |v| - 1;
      SumScaled(v[..n], a);
      assert Scaled(v, a)[..n] == Scaled(v[..n], a);
      ScaledStep(a, Sum(v[..n]), Squares(v[..n]), v[n]);
    }
  }

  lemma Zero(a: real)
    ensures Times(a, 0.0) == 0.0 && Times(1.0, a) == a && Square(0.0) == 0.0
  {
  }

  lemma Quotient(x: real, n: real)
    requires n != 0.0
    ensures Times(n, x / n) == x && Times(n, -(x / n)) == -x
  {
  }

  /** The deviations from the mean cancel out. */
  lemma DeviationsCancel(v: seq<real>)
    requires v != []
    ensures Sum(Deviations(v)) == 0.0
  {
    hide Times;
    SumShifted(v, -Mean(v));
    Quotient(Sum(v), |v| as real);
  }

  lemma Negative(k: real, e: real)
    requires k > 0.0 && k * e >= 0.0
    ensures e >= 0.0
  {
  }

  lemma CrossTerm(k: real, s: real, q: real, a: real)
    requires k >= 1.0 && s * s <= k * q
    ensures 2.0 * s * a <= k * (a * a) + q
  {
    var e := k * (a * a) + q - 2.0 * s * a;
    var t := k * a - s;
    assert t * t >= 0.0;
    assert k * e == t * t + (k * q - s * s);
    Negative(k, e);
  }

  lemma SquareOfSum(s: real, a: real)
    ensures (s + a) * (s + a) == s * s + 2.0 * s * a + a * a
  {
  }

  lemma OneMore(k: real, s: real, q: real, a: real)
    requires k >= 1.0 && Square(s) <= Times(k, q)
    ensures Square(s + a) <= Times(k + 1.0, q + Square(a))
  {
    CrossTerm(k, s, q, a);
    SquareOfSum(s, a);
    var b := a * a;
    assert (k + 1.0) * (q + b) == k * q + k * b + q + b;
  }

  /** The square of a sum is at most the count times the sum of the squares. */
  lemma {:induction false} CauchySchwarz(v: seq<real>)
    ensures Square(Sum(v)) <= Times(|v| as real, Squares(v))
  {
    hide Times, Square;
    if v == [] {
      Zero(0.0);
    } else if |v| == 1 {
      assert v[..0] == [];
      Zero(Squares(v));
    } else {
      var n := |v| - 1;
      CauchySchwarz(v[..n]);
      OneMore(n as real, Sum(v[..n]), Squares(v[..n]), v[n]);
    }
  }

  lemma Share(m: real, x: real, q: real)
    requires Square(-x) <= Times(m, q - Square(x))
    ensures Times(m + 1.0, Square(x)) <= Times(m, q)
  {
    var b := x * x;
    assert m * (q - b) == m * q - m * b;
    assert (m + 1.0) * b == m * b + b;
  }

  lemma Without(d: seq<real>, i: nat) returns (rest: seq<real>)
    requires i < |d|
    ensures |rest| == |d| - 1
    ensures Sum(rest) == Sum(d) - d[i] && Squares(rest) == Squares(d) - Square(d[i])
  {
    hide Square;
    var a, b := d[..i], d[i + 1..];
    rest := a + b;
    assert d == (a + [d[i]]) + b;
    SumConcat(a + [d[i]], b);
    Last(a, d[i]);
    SumConcat(a, b);
  }

  /** No single term of a sequence that sums to zero holds more than its share of the squares. */
  lemma OneTerm(d: seq<real>, i: nat)
    requires i < |d| && Sum(d) == 0.0
    ensures Times(|d| as real, Square(d[i])) <= Times((|d| - 1) as real, Squares(d))
  {
    hide Sum, Squares, Square, Times;
    var rest := Without(d, i);
    CauchySchwarz(rest);
    assert Sum(rest) == -d[i];
    Share(|rest| as real, d[i], Squares(d));
    assert |rest| as real + 1.0 == |d| as real;
  }

  /** The deviations do not change when all values move by the same amount. */
  lemma ShiftedDeviations(v: seq<real>, c: real)
    requires v != []
    ensures Mean(Shifted(v, c)) == Mean(v) + c
    ensures Deviations(Shifted(v, c)) == Deviations(v)
  {
    hide Sum, Times;
    SumShifted(v, c);
    ShiftedQuotient(Sum(v), |v| as real, c);
    var m := Mean(v);
    assert forall i :: 0 <= i < |v| ==> v[i] + c + -(m + c) == v[i] + -m;
  }

  lemma ShiftedQuotient(x: real, n: real, c: real)
    requires n != 0.0
    ensures (x + Times(n, c)) / n == x / n + c
  {
    assert (x + n * c) == n * (x / n + c);
  }

  /** The deviations scale with the values. */
  lemma ScaledDeviations(v: seq<real>, a: real)
    requires v != []
    ensures Mean(Scaled(v, a)) == Times(a, Mean(v))
    ensures Deviations(Scaled(v, a)) == Scaled(Deviations(v), a)
  {
    hide Sum, Squares, Times;
    SumScaled(v, a);
    ScaledQuotient(a, Sum(v), |v| as real);
    var m := Mean(v);
    forall i | 0 <= i < |v|
      ensures Times(v[i], a) + -Times(a, m) == Times(v[i] + -m, a)
    {
      ScaledDifference(v[i], m, a);
    }
  }

  lemma ScaledQuotient(a: real, x: real, n: real)
    requires n != 0.0
    ensures Times(a, x) / n == Times(a, x / n)
  {
    assert a * x == n * (a * (x / n));
  }

  lemma ScaledDifference(x: real, m: real, a: real)
    ensures Times(x, a) + -Times(a, m) == Times(x + -m, a)
  {
  }
}
