/** Scoring the partitions of a table by how far their load lies above the rest. */
module Hotspot {

  import opened Deviation

  datatype OperationType = ReadData | WriteData

  /** The load of one partition. */
  datatype Stats = Stats(read: real, write: real)
  {
    function Qps(op: OperationType): real
    {
      if op.ReadData? then read else write
    }
  }

  type Sample = seq<Stats>

  function Loads(sample: Sample, op: OperationType): seq<real>
  {
    seq(|sample|, i requires 0 <= i < |sample| => sample[i].Qps(op))
  }

  /** All loads in the window, sample by sample. */
  function Window(samples: seq<Sample>, op: OperationType): seq<real>
  {
    if samples == [] then [] else Window(samples[..|samples| - 1], op) + Loads(samples[|samples| - 1], op)
  }

  /** A square root over the reals. */
  ghost predicate IsSqrt(sqrt: real -> real)
  {
    forall x :: x >= 0.0 ==> sqrt(x) >= 0.0 && Square(sqrt(x)) == x
  }

  /** The sample standard deviation of at least two values. */
  function StandardDeviation(v: seq<real>, sqrt: real -> real): real
    requires |v| > 1
  {
    sqrt(Squares(Deviations(v)) / (|v| - 1) as real)
  }

  function Score(x: real, v: seq<real>, sqrt: real -> real): real
    requires |v| > 1
  {
    var sd := StandardDeviation(v, sqrt);
    if sd == 0.0 then 0.0 else (x - Mean(v)) / sd
  }

  lemma DeviationSquared(v: seq<real>, sqrt: real -> real)
    requires |v| > 1 && IsSqrt(sqrt)
    ensures StandardDeviation(v, sqrt) >= 0.0
    ensures Times((|v| - 1) as real, Square(StandardDeviation(v, sqrt))) == Squares(Deviations(v))
  {
    hide Squares, Deviations, Square, Times;
    var m := (|v| - 1) as real;
    var variance := Squares(Deviations(v)) / m;
    Quotient(Squares(Deviations(v)), m);
    assert variance >= 0.0 by { NonNegativeQuotient(Squares(Deviations(v)), m); }
    assert Square(sqrt(variance)) == variance;
  }

  lemma NonNegativeQuotient(x: real, m: real)
    requires x >= 0.0 && m > 0.0
    ensures x / m >= 0.0
  {
  }

  /** A score times the deviation is the distance from the mean. */
  lemma ScoreTimesDeviation(x: real, v: seq<real>, sqrt: real -> real)
    requires |v| > 1 && StandardDeviation(v, sqrt) != 0.0
    ensures Times(Square(Score(x, v, sqrt)), Square(StandardDeviation(v, sqrt))) == Square(x - Mean(v))
  {
    hide Mean, StandardDeviation;
    SquaredQuotient(x - Mean(v), StandardDeviation(v, sqrt));
  }

  lemma SquaredQuotient(x: real, y: real)
    requires y != 0.0
    ensures Times(Square(x / y), Square(y)) == Square(x)
  {
    var z := x / y;
    assert z * y == x;
    assert (z * z) * (y * y) == (z * y) * (z * y);
  }

  /** The largest score a window of `n` loads can give: its square times `n` is at most
      (n - 1) squared. */
  lemma ScoreBound(v: seq<real>, i: nat, sqrt: real -> real)
    requires |v| > 1 && i < |v| && IsSqrt(sqrt)
    ensures Times(Square(Score(v[i], v, sqrt)), |v| as real) <= Square((|v| - 1) as real)
  {
    hide Times, Square, Sum, Squares, Mean, StandardDeviation;
    var sd, d := StandardDeviation(v, sqrt), Deviations(v);
    if sd == 0.0 {
      Zero(0.0);
      ZeroScore(|v| as real);
    } else {
      DeviationsCancel(v);
      OneTerm(d, i);
      DeviationSquared(v, sqrt);
      ScoreTimesDeviation(v[i], v, sqrt);
      assert d[i] == v[i] - Mean(v);
      PositiveSquare(sd);
      ScoreAlgebra(|v| as real, Square(Score(v[i], v, sqrt)), Square(sd));
    }
  }

  lemma ZeroScore(n: real)
    ensures Times(Square(0.0), n) == 0.0
  {
  }

  lemma ScoreAlgebra(n: real, z2: real, s2: real)
    requires s2 > 0.0
    requires Times(n, Times(z2, s2)) <= Times(n - 1.0, Times(n - 1.0, s2))
    ensures Times(z2, n) <= Square(n - 1.0)
  {
    var m := n - 1.0;
    assert n * (z2 * s2) == (z2 * n) * s2 && m * (m * s2) == (m * m) * s2;
    Cancel(z2 * n, m * m, s2);
  }

  lemma Cancel(x: real, y: real, s: real)
    requires s > 0.0 && x * s <= y * s
    ensures x <= y
  {
    if x > y {
      PositiveProduct(x - y, s);
    }
  }

  lemma PositiveProduct(x: real, y: real)
    requires x > 0.0 && y > 0.0
    ensures x * y > 0.0
  {
  }

  lemma PositiveSquare(x: real)
    requires x != 0.0
    ensures Square(x) > 0.0
  {
    if Square(x) == 0.0 {
      NoZeroDivisors(x, x);
    }
  }

  function Scores(loads: seq<real>, v: seq<real>, sqrt: real -> real): (scores: seq<real>)
    requires |v| > 1
    ensures |scores| == |loads|
  {
    seq(|loads|, i requires 0 <= i < |loads| => Score(loads[i], v, sqrt))
  }

  /** The latest sample's loads close the window. */
  lemma LatestInWindow(samples: seq<Sample>, op: OperationType) returns (earlier: seq<real>)
    requires samples != []
    ensures Window(samples, op) == earlier + Loads(samples[|samples| - 1], op)
  {
    earlier := Window(samples[..|samples| - 1], op);
  }

  lemma ScoresScale(loads: seq<real>, v: seq<real>, sqrt: real -> real)
    requires |v| > 1 && StandardDeviation(v, sqrt) != 0.0
    ensures Scores(loads, v, sqrt) == Scaled(Shifted(loads, -Mean(v)), 1.0 / StandardDeviation(v, sqrt))
  {
    hide Mean, StandardDeviation, Times;
    var m, sd := Mean(v), StandardDeviation(v, sqrt);
    forall i | 0 <= i < |loads|
      ensures (loads[i] - m) / sd == Times(loads[i] + -m, 1.0 / sd)
    {
      Reciprocal(loads[i] - m, sd);
    }
  }

  lemma Reciprocal(x: real, y: real)
    requires y != 0.0
    ensures x / y == Times(x, 1.0 / y)
  {
    assert (x * (1.0 / y)) * y == x;
  }

  lemma Unscaled(q: real, y: real)
    requires y != 0.0
    ensures Times(Times(Square(1.0 / y), q), Square(y)) == q
  {
    var r := 1.0 / y;
    assert r * y == 1.0;
    assert ((r * r) * q) * (y * y) == q * ((r * y) * (r * y));
  }

  lemma {:induction false} NoSquares(v: seq<real>)
    requires forall i :: 0 <= i < |v| ==> v[i] == 0.0
    ensures Squares(v) == 0.0
  {
    if v != [] {
      NoSquares(v[..|v| - 1]);
    }
  }

  /** The squared scores of the latest loads add up to at most the window's size less one. */
  lemma ScoreSquaresBound(earlier: seq<real>, loads: seq<real>, sqrt: real -> real)
    requires |earlier + loads| > 1 && IsSqrt(sqrt)
    ensures Squares(Scores(loads, earlier + loads, sqrt)) <= (|earlier + loads| - 1) as real
  {
    hide Times, Square, Sum, Squares, Mean, StandardDeviation, IsSqrt;
    var v := earlier + loads;
    var sd, m, scores := StandardDeviation(v, sqrt), Mean(v), Scores(loads, v, sqrt);
    if sd == 0.0 {
      NoSquares(scores);
    } else {
      var d := Shifted(loads, -m);
      assert Deviations(v) == Shifted(earlier, -m) + d;
      SumConcat(Shifted(earlier, -m), d);
      ScoresScale(loads, v, sqrt);
      SumScaled(d, 1.0 / sd);
      Unscaled(Squares(d), sd);
      DeviationSquared(v, sqrt);
      PositiveSquare(sd);
      CancelTimes(Squares(scores), (|v| - 1) as real, Square(sd));
    }
  }

  lemma CancelTimes(x: real, y: real, s: real)
    requires s > 0.0 && Times(x, s) <= Times(y, s)
    ensures x <= y
  {
    Cancel(x, y, s);
  }

  /** How many partitions of the sample count as hot. */
  function Hot(sample: Sample, scores: seq<real>, op: OperationType, minScore: real, minQps: real): nat
    requires |sample| == |scores|
  {
    if scores == [] then 0
    else
      var n := |scores| - 1;
      Hot(sample[..n], scores[..n], op, minScore, minQps)
      + if scores[n] >= minScore && sample[n].Qps(op) >= minQps then 1 else 0
  }

  /** The partitions over both thresholds. */
  ghost function HotIndices(sample: Sample, scores: seq<real>, op: OperationType, minScore: real, minQps: real): set<nat>
    requires |sample| == |scores|
  {
    set i: nat | i < |scores| && scores[i] >= minScore && sample[i].Qps(op) >= minQps
  }

  /** Hot partitions are counted once each. */
  lemma {:induction false} HotCounts(sample: Sample, scores: seq<real>, op: OperationType, minScore: real, minQps: real)
    requires |sample| == |scores|
    ensures Hot(sample, scores, op, minScore, minQps) == |HotIndices(sample, scores, op, minScore, minQps)|
  {
    var all := HotIndices(sample, scores, op, minScore, minQps);
    if scores == [] {
      assert all == {};
    } else {
      var n := |scores| - 1;
      var fewer := HotIndices(sample[..n], scores[..n], op, minScore, minQps);
      HotCounts(sample[..n], scores[..n], op, minScore, minQps);
      assert n !in fewer;
      assert all == if scores[n] >= minScore && sample[n].Qps(op) >= minQps then fewer + {n} else fewer;
    }
  }

  lemma HotStep(count: nat, min: real, q: real, z: real)
    requires Times(count as real, Square(min)) <= q && 0.0 < min <= z
    ensures Times((count + 1) as real, Square(min)) <= q + Square(z)
  {
    assert min * min <= min * z <= z * z;
    assert (count + 1) as real * (min * min) == count as real * (min * min) + min * min;
  }

  lemma {:induction false} HotBound(sample: Sample, scores: seq<real>, op: OperationType, minScore: real, minQps: real)
    requires |sample| == |scores| && minScore > 0.0
    ensures Times(Hot(sample, scores, op, minScore, minQps) as real, Square(minScore)) <= Squares(scores)
  {
    hide Times, Square;
    if scores == [] {
      ZeroTimes(Square(minScore));
    } else {
      var n := |scores| - 1;
      HotBound(sample[..n], scores[..n], op, minScore, minQps);
      if scores[n] >= minScore {
        HotStep(Hot(sample[..n], scores[..n], op, minScore, minQps), minScore, Squares(scores[..n]), scores[n]);
      }
    }
  }

  lemma ZeroTimes(x: real)
    ensures Times(0.0, x) == 0.0
  {
  }

  /** Few partitions can be hot at once: their number times the squared threshold is less than
      the number of loads in the window. */
  lemma FewHotspots(samples: seq<Sample>, op: OperationType, sqrt: real -> real, minScore: real, minQps: real)
    requires samples != [] && |Window(samples, op)| > 1 && IsSqrt(sqrt) && minScore > 0.0
    ensures var sample := samples[|samples| - 1];
            var v := Window(samples, op);
            var scores := Scores(Loads(sample, op), v, sqrt);
            Times(Hot(sample, scores, op, minScore, minQps) as real, Square(minScore)) <= (|v| - 1) as real
  {
    hide Times, Square, Squares, IsSqrt, Hot, Window, Score;
    var sample, v := samples[|samples| - 1], Window(samples, op);
    var earlier := LatestInWindow(samples, op);
    ScoreSquaresBound(earlier, Loads(sample, op), sqrt);
    HotBound(sample, Scores(Loads(sample, op), v, sqrt), op, minScore, minQps);
  }

  lemma {:induction false} NoneHot(sample: Sample, scores: seq<real>, op: OperationType, minScore: real, minQps: real)
    requires |sample| == |scores| && forall i :: 0 <= i < |scores| ==> scores[i] < minScore
    ensures Hot(sample, scores, op, minScore, minQps) == 0
  {
    if scores != [] {
      var n := |scores| - 1;
      NoneHot(sample[..n], scores[..n], op, minScore, minQps);
    }
  }

  lemma Larger(x: real, min: real, n: real, bound: real)
    requires 0.0 < min <= x && n > 0.0 && Times(Square(x), n) <= bound
    ensures Times(Square(min), n) <= bound
  {
    assert min * min <= min * x <= x * x;
    assert (x * x - min * min) * n >= 0.0;
  }

  /** A threshold that is too large for the window never flags anything. */
  lemma ThresholdTooLarge(samples: seq<Sample>, op: OperationType, sqrt: real -> real, minScore: real, minQps: real)
    requires samples != [] && |Window(samples, op)| > 1 && IsSqrt(sqrt) && minScore > 0.0
    requires var n := |Window(samples, op)|; Times(Square(minScore), n as real) > Square((n - 1) as real)
    ensures var sample := samples[|samples| - 1];
            Hot(sample, Scores(Loads(sample, op), Window(samples, op), sqrt), op, minScore, minQps) == 0
  {
    hide Times, Square, Squares, IsSqrt, Hot, Window, Score;
    var sample, v := samples[|samples| - 1], Window(samples, op);
    var loads := Loads(sample, op);
    var earlier := LatestInWindow(samples, op);
    var scores := Scores(loads, v, sqrt);
    forall i | 0 <= i < |scores|
      ensures scores[i] < minScore
    {
      assert v[|earlier| + i] == loads[i];
      ScoreBound(v, |earlier| + i, sqrt);
      if scores[i] >= minScore {
        Larger(scores[i], minScore, |v| as real, Square((|v| - 1) as real));
      }
    }
    NoneHot(sample, scores, op, minScore, minQps);
  }

  /** A window in which all load is on one partition. */
  function Spike(n: nat): seq<real>
  {
    seq(n, i => if i == 0 then 1.0 else 0.0)
  }

  lemma {:induction false} SpikeSums(n: nat, c: real)
    requires n > 0
    ensures Sum(Spike(n)) == 1.0
    ensures Squares(Shifted(Spike(n), c)) == Square(1.0 + c) + Times((n - 1) as real, Square(c))
  {
    hide Times, Square;
    var v := Spike(n);
    if n == 1 {
      assert v[..0] == [] && Shifted(v, c)[..0] == [];
      ZeroTimes(Square(c));
    } else {
      SpikeSums(n - 1, c);
      assert v[..n - 1] == Spike(n - 1);
      assert Shifted(v, c)[..n - 1] == Shifted(Spike(n - 1), c);
      OneMoreTerm((n - 2) as real, Square(c));
    }
  }

  lemma OneMoreTerm(k: real, x: real)
    ensures Times(k + 1.0, x) == Times(k, x) + x
  {
  }

  lemma SpikeAlgebra(n: real)
    requires n > 1.0
    ensures Times(n, Square(1.0 - 1.0 / n)) == Times(n - 1.0, Square(1.0 - 1.0 / n) + Times(n - 1.0, Square(-(1.0 / n))))
    ensures Square(1.0 - 1.0 / n) > 0.0
  {
    var r := 1.0 / n;
    var d := 1.0 - r;
    assert n * r == 1.0;
    assert n * d == n - 1.0;
    assert n * (d * d) == (n - 1.0) * d;
    assert -r * -r == r * r;
    assert n * (d * d + (n - 1.0) * (r * r)) == (n - 1.0) * d + (n - 1.0) * r;
    assert n * d > 0.0;
    Times3(n, d * d + (n - 1.0) * (r * r), n - 1.0, d);
    PositiveSquare(d);
  }

  lemma Times3(n: real, q: real, m: real, d: real)
    requires n > 0.0 && n * d == m && n * q == m
    ensures m * q == m * d
  {
    assert n * (q - d) == 0.0;
    NoZeroDivisors(n, q - d);
  }

  /** The bound on scores is attained, by a window with all load on one partition. */
  lemma ScoreBoundAttained(n: nat, sqrt: real -> real)
    requires n > 1 && IsSqrt(sqrt)
    ensures Score(1.0, Spike(n), sqrt) >= 0.0
    ensures Times(Square(Score(1.0, Spike(n), sqrt)), n as real) == Square((n - 1) as real)
  {
    hide Times, Square, Sum, Squares, StandardDeviation, IsSqrt;
    var v, r := Spike(n), 1.0 / n as real;
    var sd, m := StandardDeviation(v, sqrt), (n - 1) as real;
    SpikeSums(n, -r);
    assert Mean(v) == r;
    SpikeAlgebra(n as real);
    DeviationSquared(v, sqrt);
    assert sd != 0.0 by {
      if sd == 0.0 {
        Zero(m);
        NonNegativeTimes(m, Square(-r));
      }
    }
    ScoreTimesDeviation(1.0, v, sqrt);
    PositiveSquare(sd);
    AttainedAlgebra(n as real, Square(Score(1.0, v, sqrt)), Square(sd));
    NonNegativeQuotient(1.0 - r, sd);
  }

  lemma NonNegativeTimes(x: real, y: real)
    requires x >= 0.0 && y >= 0.0
    ensures Times(x, y) >= 0.0
  {
  }

  lemma AttainedAlgebra(n: real, z2: real, s2: real)
    requires s2 > 0.0
    requires Times(n, Times(z2, s2)) == Times(n - 1.0, Times(n - 1.0, s2))
    ensures Times(z2, n) == Square(n - 1.0)
  {
    var m := n - 1.0;
    assert n * (z2 * s2) == (z2 * n) * s2 && m * (m * s2) == (m * m) * s2;
    Cancel(z2 * n, m * m, s2);
    Cancel(m * m, z2 * n, s2);
  }

  lemma SpikeReaches(n: nat, sqrt: real -> real, minScore: real)
    requires n > 1 && IsSqrt(sqrt) && minScore > 0.0
    requires Times(Square(minScore), n as real) <= Square((n - 1) as real)
    ensures Score(1.0, Spike(n), sqrt) >= minScore
  {
    hide Times, Square, IsSqrt, Score;
    ScoreBoundAttained(n, sqrt);
    Compare(Score(1.0, Spike(n), sqrt), minScore, n as real);
  }

  /** A sample of `n` partitions with load `a` on the first, reads or writes, and none else. */
  function SpikeSample(n: nat, a: real, op: OperationType): Sample
  {
    seq(n, i => if i > 0 then Stats(0.0, 0.0) else match op case ReadData => Stats(a, 0.0) case WriteData => Stats(0.0, a))
  }

  /** The window lists the loads of all its samples, in order. */
  lemma {:induction false} WindowConcat(samples: seq<Sample>, more: seq<Sample>, op: OperationType)
    ensures Window(samples + more, op) == Window(samples, op) + Window(more, op)
  {
    if more == [] {
      assert samples + more == samples;
    } else {
      var n := |more| - 1;
      assert samples + more == (samples + more[..n]) + [more[n]];
      assert (samples + more)[..|samples| + n] == samples + more[..n];
      WindowConcat(samples, more[..n], op);
    }
  }

  lemma OneSampleWindow(sample: Sample, op: OperationType)
    ensures Window([sample], op) == Loads(sample, op)
  {
    assert [sample][..0] == [];
    assert Window([sample], op) == [] + Loads(sample, op);
  }

  lemma SpikeLoads(n: nat, a: real, op: OperationType)
    requires n > 0
    ensures Window([SpikeSample(n, a, op)], op) == Loads(SpikeSample(n, a, op), op) == Scaled(Spike(n), a)
  {
    var sample := SpikeSample(n, a, op);
    OneSampleWindow(sample, op);
    assert Times(1.0, a) == a && Times(0.0, a) == 0.0;
  }

  lemma {:induction false} OneHot(
    sample: Sample, scores: seq<real>, op: OperationType, minScore: real, minQps: real, i: nat)
    requires |sample| == |scores| && i < |scores|
    requires scores[i] >= minScore && sample[i].Qps(op) >= minQps
    ensures Hot(sample, scores, op, minScore, minQps) >= 1
  {
    var n := |scores| - 1;
    if i < n {
      OneHot(sample[..n], scores[..n], op, minScore, minQps, i);
    }
  }

  /** The number of hot partitions a window gives. */
  function Flagged(samples: seq<Sample>, op: OperationType, sqrt: real -> real, minScore: real, minQps: real): nat
    requires samples != [] && |Window(samples, op)| > 1
  {
    var sample := samples[|samples| - 1];
    Hot(sample, Scores(Loads(sample, op), Window(samples, op), sqrt), op, minScore, minQps)
  }

  function Other(op: OperationType): OperationType
  {
    match op
    case ReadData => WriteData
    case WriteData => ReadData
  }

  /** Without any load there is nothing to flag. */
  lemma SpikeUnflagged(n: nat, a: real, op: OperationType, sqrt: real -> real, minScore: real, minQps: real)
    requires n > 1 && IsSqrt(sqrt) && minScore > 0.0
    ensures var samples := [SpikeSample(n, a, op)];
            |Window(samples, Other(op))| == n && Flagged(samples, Other(op), sqrt, minScore, minQps) == 0
  {
    hide Times, IsSqrt, Hot;
    var sample, other := SpikeSample(n, a, op), Other(op);
    OneSampleWindow(sample, other);
    var v := Loads(sample, other);
    assert forall i :: 0 <= i < |v| ==> v[i] == 0.0;
    NoSum(v);
    var scores := Scores(Loads(sample, other), v, sqrt);
    forall i | 0 <= i < |scores|
      ensures scores[i] < minScore
    {
      ZeroLoadScore(v, sqrt);
    }
    NoneHot(sample, scores, other, minScore, minQps);
  }

  lemma {:induction false} NoSum(v: seq<real>)
    requires forall i :: 0 <= i < |v| ==> v[i] == 0.0
    ensures Sum(v) == 0.0
  {
    if v != [] {
      NoSum(v[..|v| - 1]);
    }
  }

  lemma ZeroLoadScore(v: seq<real>, sqrt: real -> real)
    requires |v| > 1 && Sum(v) == 0.0
    ensures Score(0.0, v, sqrt) == 0.0
  {
    hide StandardDeviation;
    assert Mean(v) == 0.0;
  }

  /** A threshold that is not too large flags a partition that carries all load, and only for
      the operations that make up that load. */
  lemma SpikeFlagged(n: nat, op: OperationType, sqrt: real -> real, minScore: real, minQps: real)
    returns (samples: seq<Sample>)
    requires n > 1 && IsSqrt(sqrt) && minScore > 0.0
    requires Times(Square(minScore), n as real) <= Square((n - 1) as real)
    ensures samples != [] && |Window(samples, op)| == n && Flagged(samples, op, sqrt, minScore, minQps) >= 1
    ensures |Window(samples, Other(op))| == n && Flagged(samples, Other(op), sqrt, minScore, minQps) == 0
  {
    hide Times, Square, IsSqrt, Score, Hot, Window;
    var a := if minQps > 0.0 then minQps else 1.0;
    var sample := SpikeSample(n, a, op);
    samples := [sample];
    SpikeUnflagged(n, a, op, sqrt, minScore, minQps);
    SpikeLoads(n, a, op);
    var v := Window(samples, op);
    SpikeReaches(n, sqrt, minScore);
    ScoresUnscaled(1.0, Spike(n), a, sqrt);
    Zero(a);
    var scores := Scores(Loads(sample, op), v, sqrt);
    assert Loads(sample, op)[0] == Times(1.0, a);
    assert scores[0] == Score(Times(1.0, a), Scaled(Spike(n), a), sqrt);
    OneHot(sample, scores, op, minScore, minQps, 0);
  }

  /** A threshold can flag something in a window of `n` loads if and only if its square times
      `n` is at most (n - 1) squared, whatever the threshold on the load. */
  lemma ThresholdExact(n: nat, op: OperationType, sqrt: real -> real, minScore: real, minQps: real)
    requires n > 1 && IsSqrt(sqrt) && minScore > 0.0
    ensures (exists samples: seq<Sample> ::
               samples != [] && |Window(samples, op)| == n && Flagged(samples, op, sqrt, minScore, minQps) >= 1)
       <==> Times(Square(minScore), n as real) <= Square((n - 1) as real)
  {
    hide Times, Square, IsSqrt, Hot, Scores, Window, Flagged;
    if Times(Square(minScore), n as real) <= Square((n - 1) as real) {
      var samples := SpikeFlagged(n, op, sqrt, minScore, minQps);
    } else {
      forall samples: seq<Sample> | samples != [] && |Window(samples, op)| == n
        ensures Flagged(samples, op, sqrt, minScore, minQps) == 0
      {
        NothingFlagged(samples, op, sqrt, minScore, minQps);
      }
    }
  }

  lemma NothingFlagged(samples: seq<Sample>, op: OperationType, sqrt: real -> real, minScore: real, minQps: real)
    requires samples != [] && |Window(samples, op)| > 1 && IsSqrt(sqrt) && minScore > 0.0
    requires var n := |Window(samples, op)|; Times(Square(minScore), n as real) > Square((n - 1) as real)
    ensures Flagged(samples, op, sqrt, minScore, minQps) == 0
  {
    hide Times, Square, IsSqrt, Hot, Scores, Window;
    ThresholdTooLarge(samples, op, sqrt, minScore, minQps);
  }

  lemma SquaresGrow(x: real, y: real)
    requires 0.0 <= x < y
    ensures Square(x) < Square(y)
  {
    hide Times, Square;
    var d := y - x;
    SquareIsTimes(x);
    SquareIsTimes(y);
    Scale(x, d, y);
    Commutes(x, y);
    Scale(x, d, x);
    NonNegativeTimes(d, x);
    PositiveTimes(d, y);
    assert Square(y) == Times(x + d, y);
    assert Times(y, x) == Times(x + d, x);
  }

  lemma SquareIsTimes(x: real)
    ensures Square(x) == Times(x, x)
  {
  }

  lemma PositiveTimes(x: real, y: real)
    requires x > 0.0 && y > 0.0
    ensures Times(x, y) > 0.0
  {
  }

  lemma Scale(x: real, d: real, y: real)
    ensures Times(x + d, y) == Times(x, y) + Times(d, y)
  {
  }

  lemma Commutes(x: real, y: real)
    ensures Times(x, y) == Times(y, x)
  {
  }

  lemma Compare(x: real, min: real, n: real)
    requires x >= 0.0 && min > 0.0 && n > 0.0 && Times(Square(min), n) <= Times(Square(x), n)
    ensures x >= min
  {
    hide Times, Square;
    CancelTimes(Square(min), Square(x), n);
    if x < min {
      SquaresGrow(x, min);
    }
  }

  /** Moving all loads by the same amount changes no score. */
  lemma ScoresShift(x: real, v: seq<real>, c: real, sqrt: real -> real)
    requires |v| > 1
    ensures Score(x + c, Shifted(v, c), sqrt) == Score(x, v, sqrt)
  {
    hide Mean, Sum, Squares;
    ShiftedDeviations(v, c);
  }

  /** Multiplying all loads by a positive number changes no score. */
  lemma ScoresUnscaled(x: real, v: seq<real>, a: real, sqrt: real -> real)
    requires |v| > 1 && a > 0.0 && IsSqrt(sqrt)
    ensures Score(Times(x, a), Scaled(v, a), sqrt) == Score(x, v, sqrt)
  {
    hide Mean, Sum, Squares, Times, Square, StandardDeviation, IsSqrt;
    var w := Scaled(v, a);
    var s, t := StandardDeviation(v, sqrt), StandardDeviation(w, sqrt);
    ScaledDeviations(v, a);
    SumScaled(Deviations(v), a);
    DeviationSquared(v, sqrt);
    DeviationSquared(w, sqrt);
    ScaledRoot((|v| - 1) as real, s, t, a);
    if s != 0.0 {
      ScaledScore(x, Mean(v), s, a);
    } else {
      Zero(a);
    }
  }

  lemma ScaledRoot(m: real, s: real, t: real, a: real)
    requires m > 0.0 && a > 0.0 && s >= 0.0 && t >= 0.0
    requires Times(m, Square(t)) == Times(Square(a), Times(m, Square(s)))
    ensures t == Times(a, s)
  {
    var u := a * s;
    assert (a * a) * (m * (s * s)) == m * (u * u);
    assert m * (t * t - u * u) == 0.0;
    NoZeroDivisors(m, t * t - u * u);
    assert (t - u) * (t + u) == t * t - u * u;
    NoZeroDivisors(t - u, t + u);
    assert u >= 0.0;
  }

  lemma NoZeroDivisors(x: real, y: real)
    requires x * y == 0.0
    ensures x == 0.0 || y == 0.0
  {
    if x != 0.0 {
      assert y == (x * y) / x;
    }
  }

  lemma ScaledScore(x: real, m: real, s: real, a: real)
    requires s != 0.0 && a > 0.0
    ensures Times(a, s) != 0.0 && (Times(x, a) - Times(a, m)) / Times(a, s) == (x - m) / s
  {
    var z := (x - m) / s;
    assert z * s == x - m;
    assert z * (a * s) == (z * s) * a == x * a - a * m;
  }

  /** The last `n` elements, or all if there are fewer. */
  function Latest(history: seq<Sample>, n: nat): seq<Sample>
  {
    if |history| <= n then history else history[|history| - n..]
  }

  lemma NoDeviations(op: OperationType, avg: real)
    ensures Squares(Shifted(Window([], op), -avg)) == 0.0
    ensures forall sample: Sample :: sample[..0] == []
    ensures Squares(Shifted(Loads([], op), -avg)) == 0.0
  {
  }

  lemma DeviationStep(sample: Sample, j: nat, op: OperationType, avg: real)
    requires j < |sample|
    ensures Squares(Shifted(Loads(sample[..j + 1], op), -avg))
         == Squares(Shifted(Loads(sample[..j], op), -avg)) + Square(sample[j].Qps(op) - avg)
  {
    hide Square;
    var before, x := Shifted(Loads(sample[..j], op), -avg), sample[j].Qps(op) - avg;
    assert Shifted(Loads(sample[..j + 1], op), -avg) == before + [x];
    Last(before, x);
  }

  lemma DeviationsConcat(w: seq<real>, l: seq<real>, avg: real)
    ensures Squares(Shifted(w + l, -avg)) == Squares(Shifted(w, -avg)) + Squares(Shifted(l, -avg))
  {
    hide Squares;
    assert Shifted(w + l, -avg) == Shifted(w, -avg) + Shifted(l, -avg);
    SumConcat(Shifted(w, -avg), Shifted(l, -avg));
  }

  lemma ScoreIs(x: real, v: seq<real>, sqrt: real -> real, avg: real, deviation: real)
    requires |v| > 1 && avg == Mean(v) && deviation == StandardDeviation(v, sqrt)
    ensures Score(x, v, sqrt) == if deviation == 0.0 then 0.0 else (x - avg) / deviation
  {
    hide Mean, StandardDeviation;
  }

  class PartitionAnalyzer {
    const maxSampleSize: nat
    const hotspotPartitionMinScore: real
    const hotspotPartitionMinQPS: real
    var expireTimestampSeconds: int
    var samples: seq<Sample>
    /** Every sample ever added. */
    ghost var history: seq<Sample>

    /** The configuration is checked when it is loaded; the window holds the latest samples. */
    ghost predicate Valid()
      reads this
    {
      && maxSampleSize > 0 && hotspotPartitionMinScore > 0.0 && hotspotPartitionMinQPS > 0.0
      && samples == Latest(history, maxSampleSize)
    }

    constructor (maxSampleSize: nat, minScore: real, minQPS: real)
      requires maxSampleSize > 0 && minScore > 0.0 && minQPS > 0.0
      ensures Valid() && history == []
    {
      this.maxSampleSize := maxSampleSize;
      hotspotPartitionMinScore, hotspotPartitionMinQPS := minScore, minQPS;
      expireTimestampSeconds := 0;
      samples, history := [], [];
    }

    method Add(sample: Sample, expire: int)
      requires Valid()
      modifies this
      ensures Valid() && history == old(history) + [sample] && expireTimestampSeconds == expire
    {
      expireTimestampSeconds := expire;
      while |samples| >= maxSampleSize
        invariant maxSampleSize - 1 <= |samples| <= maxSampleSize || samples == old(samples)
        invariant |samples| <= maxSampleSize && |samples| <= |history|
        invariant history == old(history) && expireTimestampSeconds == expire
        invariant samples == history[|history| - |samples|..]
      {
        samples := samples[1..];
      }
      samples := samples + [sample];
      history := history + [sample];
    }

    /** The scores of the latest sample, if the window holds at least two loads. */
    method CalculateScores(op: OperationType, sqrt: real -> real) returns (sample: Sample, scores: seq<real>)
      ensures |Window(samples, op)| <= 1 ==> sample == [] && scores == []
      ensures |Window(samples, op)| > 1 ==>
                && samples != [] && sample == samples[|samples| - 1]
                && scores == Scores(Loads(sample, op), Window(samples, op), sqrt)
    {
      hide Times, Square, Sum, Squares, Score;
      var count, sum := Totals(op);
      if count <= 1 {
        return [], [];
      }
      var avg := sum / count as real;
      var deviation := SquaredDeviations(op, avg);
      deviation := sqrt(deviation / (count - 1) as real);
      sample := samples[|samples| - 1];
      assert avg == Mean(Window(samples, op)) && deviation == StandardDeviation(Window(samples, op), sqrt);
      hide StandardDeviation, Mean, Window, Deviations;
      scores := [];
      for i := 0 to |sample|
        invariant |scores| == i
        invariant forall k :: 0 <= k < i ==> scores[k] == Score(sample[k].Qps(op), Window(samples, op), sqrt)
      {
        ScoreIs(sample[i].Qps(op), Window(samples, op), sqrt, avg, deviation);
        if deviation == 0.0 {
          scores := scores + [0.0];
        } else {
          scores := scores + [(sample[i].Qps(op) - avg) / deviation];
        }
      }
    }

    /** The number of loads in the window and their sum. */
    method Totals(op: OperationType) returns (count: nat, sum: real)
      ensures count == |Window(samples, op)| && sum == Sum(Window(samples, op))
    {
      hide Times, Square;
      count, sum := 0, 0.0;
      for i := 0 to |samples|
        invariant count == |Window(samples[..i], op)| && sum == Sum(Window(samples[..i], op))
      {
        assert samples[..i + 1][..i] == samples[..i];
        count := count + |samples[i]|;
        ghost var before := sum;
        for j := 0 to |samples[i]|
          invariant sum == before + Sum(Loads(samples[i][..j], op))
        {
          assert Loads(samples[i][..j + 1], op)[..j] == Loads(samples[i][..j], op);
          sum := sum + samples[i][j].Qps(op);
        }
        assert samples[i][..|samples[i]|] == samples[i];
        SumConcat(Window(samples[..i], op), Loads(samples[i], op));
      }
      assert samples[..|samples|] == samples;
    }

    /** The sum of the squared distances from `avg`. */
    method SquaredDeviations(op: OperationType, avg: real) returns (total: real)
      ensures total == Squares(Shifted(Window(samples, op), -avg))
    {
      hide Square, Shifted, Loads;
      total := 0.0;
      NoDeviations(op, avg);
      for i := 0 to |samples|
        invariant total == Squares(Shifted(Window(samples[..i], op), -avg))
      {
        var sample := samples[i];
        ghost var before := total;
        for j := 0 to |sample|
          invariant total == before + Squares(Shifted(Loads(sample[..j], op), -avg))
        {
          DeviationStep(sample, j, op, avg);
          var deviation := sample[j].Qps(op) - avg;
          total := total + Square(deviation);
        }
        assert sample[..|sample|] == sample;
        assert samples[..i + 1][..i] == samples[..i];
        DeviationsConcat(Window(samples[..i], op), Loads(sample, op), avg);
      }
      assert samples[..|samples|] == samples;
    }

    method CountHotspots(op: OperationType, sample: Sample, scores: seq<real>) returns (hotspotCount: nat)
      requires |sample| == |scores|
      ensures hotspotCount == Hot(sample, scores, op, hotspotPartitionMinScore, hotspotPartitionMinQPS)
      ensures hotspotCount == |HotIndices(sample, scores, op, hotspotPartitionMinScore, hotspotPartitionMinQPS)|
    {
      hotspotCount := 0;
      for i := 0 to |scores|
        invariant hotspotCount == Hot(sample[..i], scores[..i], op, hotspotPartitionMinScore, hotspotPartitionMinQPS)
      {
        assert sample[..i + 1][..i] == sample[..i] && scores[..i + 1][..i] == scores[..i];
        if scores[i] < hotspotPartitionMinScore {
          continue;
        }
        if sample[i].Qps(op) < hotspotPartitionMinQPS {
          continue;
        }
        hotspotCount := hotspotCount + 1;
      }
      assert sample[..|sample|] == sample && scores[..|scores|] == scores;
      HotCounts(sample, scores, op, hotspotPartitionMinScore, hotspotPartitionMinQPS);
    }

    /** Scores the window and counts the hot partitions of the latest sample. */
    method AnalyseHotspots(op: OperationType, sqrt: real -> real) returns (hotspotCount: nat)
      requires Valid() && IsSqrt(sqrt)
      ensures var n := |Window(samples, op)|;
              if n <= 1 then hotspotCount == 0
              else
                && hotspotCount == Flagged(samples, op, sqrt, hotspotPartitionMinScore, hotspotPartitionMinQPS)
                && Times(hotspotCount as real, Square(hotspotPartitionMinScore)) <= (n - 1) as real
                && (Times(Square(hotspotPartitionMinScore), n as real) > Square((n - 1) as real) ==> hotspotCount == 0)
    {
      hide Times, Square, IsSqrt, Scores, Hot;
      var sample, scores := CalculateScores(op, sqrt);
      if |scores| == 0 {
        hotspotCount := 0;
        if |Window(samples, op)| > 1 {
          NoneHot(sample, scores, op, hotspotPartitionMinScore, hotspotPartitionMinQPS);
        }
        ZeroTimes(Square(hotspotPartitionMinScore));
        return;
      }
      hotspotCount := CountHotspots(op, sample, scores);
      FewHotspots(samples, op, sqrt, hotspotPartitionMinScore, hotspotPartitionMinQPS);
      if Times(Square(hotspotPartitionMinScore), |Window(samples, op)| as real) > Square((|Window(samples, op)| - 1) as real) {
        ThresholdTooLarge(samples, op, sqrt, hotspotPartitionMinScore, hotspotPartitionMinQPS);
      }
    }
  }
}
