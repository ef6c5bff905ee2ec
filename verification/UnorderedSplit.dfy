/** Sharing the partitions of a table out among unordered scanners, as the Python and the Go
    client do it. */
module UnorderedSplit {

  import opened Arithmetic

  type Share = seq<int>

  function Flat(shares: seq<Share>): seq<int>
  {
    if shares == [] then [] else Flat(shares[..|shares| - 1]) + shares[|shares| - 1]
  }

  ghost predicate Shared(shares: seq<Share>, p: int)
  {
    exists i :: 0 <= i < |shares| && p in shares[i]
  }

  /** Every partition is in exactly one place of exactly one share. */
  ghost predicate ExactCover(shares: seq<Share>, count: int)
  {
    && (forall p :: 0 <= p < count ==> Shared(shares, p))
    && (forall i, a :: 0 <= i < |shares| && 0 <= a < |shares[i]| ==> 0 <= shares[i][a] < count)
    && (forall i, a, j, b ::
          (0 <= i < |shares| && 0 <= a < |shares[i]| && 0 <= j < |shares| && 0 <= b < |shares[j]|
           && shares[i][a] == shares[j][b]) ==> i == j && a == b)
  }

  /** A list of all partitions without repetition. */
  ghost predicate Lists(order: seq<int>, count: int)
  {
    && (forall p :: 0 <= p < count ==> p in order)
    && (forall k :: 0 <= k < |order| ==> 0 <= order[k] < count)
    && (forall k, l :: 0 <= k < l < |order| ==> order[k] != order[l])
  }

  ghost function Offset(shares: seq<Share>, i: nat): nat
    requires i <= |shares|
  {
    |Flat(shares[..i])|
  }

  /** Where an entry of a share stands in the concatenation. */
  lemma {:induction false} Placed(shares: seq<Share>, i: nat, a: nat)
    requires i < |shares| && a < |shares[i]|
    ensures Offset(shares, i) + a < Offset(shares, i + 1) <= |Flat(shares)|
    ensures Flat(shares)[Offset(shares, i) + a] == shares[i][a]
  {
    var last := |shares| - 1;
    var init := shares[..last];
    if i < last {
      Placed(init, i, a);
      assert init[..i] == shares[..i] && init[..i + 1] == shares[..i + 1];
    } else {
      assert shares[..last + 1] == shares;
    }
  }

  lemma {:induction false} OffsetsGrow(shares: seq<Share>, i: nat, j: nat)
    requires i <= j <= |shares|
    ensures Offset(shares, i) <= Offset(shares, j)
  {
    if i < j {
      OffsetsGrow(shares, i, j - 1);
      assert shares[..j][..j - 1] == shares[..j - 1];
    }
  }

  /** Which share an entry of the concatenation comes from. */
  lemma {:induction false} Located(shares: seq<Share>, k: nat) returns (i: nat)
    requires k < |Flat(shares)|
    ensures i < |shares| && Flat(shares)[k] in shares[i]
  {
    var last := |shares| - 1;
    if k < |Flat(shares[..last])| {
      i := Located(shares[..last], k);
    } else {
      i := last;
      assert Flat(shares)[k] == shares[last][k - |Flat(shares[..last])|];
    }
  }

  lemma CoverFromList(shares: seq<Share>, count: int)
    requires Lists(Flat(shares), count)
    ensures ExactCover(shares, count)
  {
    var order := Flat(shares);
    forall p | 0 <= p < count
      ensures Shared(shares, p)
    {
      assert p in order;
      var k :| 0 <= k < |order| && order[k] == p;
      var i := Located(shares, k);
    }
    forall i, a | 0 <= i < |shares| && 0 <= a < |shares[i]|
      ensures 0 <= shares[i][a] < count
    {
      Placed(shares, i, a);
    }
    forall i, a, j, b |
      0 <= i < |shares| && 0 <= a < |shares[i]| && 0 <= j < |shares| && 0 <= b < |shares[j]|
      && shares[i][a] == shares[j][b]
      ensures i == j && a == b
    {
      SamePlace(shares, count, i, a, j, b);
    }
  }

  lemma SamePlace(shares: seq<Share>, count: int, i: nat, a: nat, j: nat, b: nat)
    requires Lists(Flat(shares), count)
    requires i < |shares| && a < |shares[i]| && j < |shares| && b < |shares[j]|
    requires shares[i][a] == shares[j][b]
    ensures i == j && a == b
  {
    Placed(shares, i, a);
    Placed(shares, j, b);
    if i < j {
      OffsetsGrow(shares, i + 1, j);
    } else if j < i {
      OffsetsGrow(shares, j + 1, i);
    }
  }

  function Descending(from: int, downTo: int): seq<int>
    requires downTo <= from
  {
    seq(from - downTo, i => from - 1 - i)
  }

  function Ascending(from: int, to: int): seq<int>
    requires from <= to
  {
    seq(to - from, i => from + i)
  }

  lemma AllListed(count: nat)
    ensures Lists(Descending(count, 0), count) && Lists(Ascending(0, count), count)
  {
    forall p | 0 <= p < count
      ensures p in Descending(count, 0) && p in Ascending(0, count)
    {
      assert Descending(count, 0)[count - 1 - p] == p && Ascending(0, count)[p] == p;
    }
  }

  /** The number of scanners. */
  function Split(total: nat, maxSplitCount: int): (n: nat)
    requires maxSplitCount > 0
    ensures n <= total && n <= maxSplitCount && (n == total || n == maxSplitCount)
  {
    if total < maxSplitCount then total else maxSplitCount
  }

  datatype PythonSplit = NoScanners | DivisionError | Scanners(shares: seq<Share>)

  /** Python: the first `count % split` scanners get one partition more than the others. */
  method PythonUnorderedScanners(partitions: nat, maxSplitCount: int) returns (r: PythonSplit)
    ensures r.NoScanners? <==> maxSplitCount <= 0
    ensures r.DivisionError? <==> maxSplitCount > 0 && partitions == 0
    ensures r.Scanners? ==>
              && |r.shares| == Split(partitions, maxSplitCount)
              && ExactCover(r.shares, partitions)
              && Flat(r.shares) == Descending(partitions, 0)
              && (forall i, j :: 0 <= i < |r.shares| && 0 <= j < |r.shares| ==> |r.shares[i]| <= |r.shares[j]| + 1)
              && (forall i, j :: 0 <= i < j < |r.shares| ==> |r.shares[j]| <= |r.shares[i]|)
  {
    hide ExactCover, Descending, Flat;
    if maxSplitCount <= 0 {
      return NoScanners;
    }
    var split := if partitions < maxSplitCount then partitions else maxSplitCount;
    if split == 0 {
      return DivisionError;
    }
    var shares := PythonShares(partitions, split, partitions / split, partitions % split);
    r := Scanners(shares);
  }

  /** The loop over the scanners. */
  method PythonShares(partitions: nat, split: nat, size: nat, more: nat) returns (shares: seq<Share>)
    requires split > 0 && size == partitions / split && more == partitions % split
    ensures |shares| == split && ExactCover(shares, partitions) && Flat(shares) == Descending(partitions, 0)
    ensures forall j :: 0 <= j < split ==> |shares[j]| == if j < more then size + 1 else size
  {
    hide ExactCover, Descending, Lists, Rest;
    Untaken(partitions, split);
    shares := [];
    var count := partitions;
    for i := 0 to split
      invariant |shares| == i && count == Rest(split, size, more, i) <= partitions
      invariant Flat(shares) == Descending(partitions, count)
      invariant forall j :: 0 <= j < i ==> |shares[j]| == if j < more then size + 1 else size
    {
      var s := if i < more then size + 1 else size;
      RestStep(split, size, more, i);
      var gpids := TakeFromEnd(count, s);
      Appended(shares, gpids, partitions, count, s);
      shares := shares + [gpids];
      count := count - s;
    }
    AllListed(partitions);
    CoverFromList(shares, partitions);
  }

  /** The inner loop: the last `s` of the partitions below `count`. */
  method TakeFromEnd(count: nat, s: nat) returns (gpids: Share)
    requires s <= count
    ensures gpids == Descending(count, count - s)
  {
    gpids := [];
    for j := 0 to s
      invariant gpids == Descending(count, count - j)
    {
      gpids := gpids + [count - 1 - j];
    }
  }

  /** Partitions not yet given out before scanner `i`. */
  ghost function Rest(split: nat, size: nat, more: nat, i: nat): nat
    requires i <= split
  {
    (split - i) * size + if i < more then more - i else 0
  }

  lemma RestStep(split: nat, size: nat, more: nat, i: nat)
    requires i < split
    ensures Rest(split, size, more, i) == Rest(split, size, more, i + 1) + size + if i < more then 1 else 0
  {
  }

  lemma Untaken(count: nat, split: nat)
    requires split > 0
    ensures Rest(split, count / split, count % split, 0) == count
    ensures Rest(split, count / split, count % split, split) == 0
    ensures Descending(count, count) == []
  {
  }

  lemma Appended(shares: seq<Share>, gpids: Share, partitions: nat, count: nat, s: nat)
    requires s <= count <= partitions
    requires Flat(shares) == Descending(partitions, count) && gpids == Descending(count, count - s)
    ensures Flat(shares + [gpids]) == Descending(partitions, count - s) && |gpids| == s
  {
    assert (shares + [gpids])[..|shares|] == shares;
  }

  datatype GoSplit = InvalidSplitCount | MakePanic | GoScanners(shares: seq<Share>)

  /** The share of all Go scanners but the first: the total divided by the split, rounded up. */
  function Quota(total: nat, split: nat): nat
  {
    if split == 0 || total == 0 then 1 else (total + split - 1) / split
  }

  /** What is left for the first Go scanner when the others get `k` partitions each. */
  function Left(total: nat, split: nat, k: nat): int
  {
    total - k * (split - 1)
  }

  /** Go: every scanner but the first gets the quota, the first gets what is left; a negative
      rest panics in `make`. */
  method GoUnorderedScanners(total: nat, maxSplitCount: int) returns (r: GoSplit)
    ensures r.InvalidSplitCount? <==> maxSplitCount <= 0
    ensures r.MakePanic? <==>
              && maxSplitCount > 0
              && var split := Split(total, maxSplitCount); Left(total, split, Quota(total, split)) < 0
    ensures r.GoScanners? ==>
              && |r.shares| == Split(total, maxSplitCount)
              && ExactCover(r.shares, total)
              && Flat(r.shares) == Ascending(0, total)
              && (forall i :: 0 < i < |r.shares| ==> |r.shares[i]| == Quota(total, |r.shares|))
  {
    hide ExactCover, Ascending, Quota, Left, IsLeast, Flat;
    if maxSplitCount <= 0 {
      return InvalidSplitCount;
    }
    var split := if total < maxSplitCount then total else maxSplitCount;
    var k := LeastMultiplier(total, split);
    r := GoShares(total, split, k);
  }

  /** The loop over the scanners. */
  method GoShares(total: nat, split: nat, k: nat) returns (r: GoSplit)
    requires split > 0 || total == 0
    ensures !r.InvalidSplitCount? && (r.MakePanic? <==> Left(total, split, k) < 0)
    ensures r.GoScanners? ==>
              && |r.shares| == split && ExactCover(r.shares, total) && Flat(r.shares) == Ascending(0, total)
              && (forall i :: 0 < i < |r.shares| ==> |r.shares[i]| == k)
  {
    hide ExactCover, Ascending, Lists, Start, Left;
    var left := Left(total, split, k);
    var shares: seq<Share> := [];
    var id := 0;
    NothingTaken(total, split, k);
    for i := 0 to split
      invariant |shares| == i && (i > 0 ==> left >= 0)
      invariant 0 <= id == if i == 0 then 0 else Start(total, split, k, i)
      invariant Flat(shares) == Ascending(0, id)
      invariant forall j :: 0 < j < i ==> |shares[j]| == k
    {
      var sliceLen := if i == 0 then left else k;
      if sliceLen < 0 {
        return MakePanic;
      }
      StartStep(total, split, k, i);
      var gpids := TakeFrom(id, sliceLen);
      AppendedAbove(shares, gpids, id, sliceLen);
      shares := shares + [gpids];
      id := id + sliceLen;
    }
    AllListed(total);
    CoverFromList(shares, total);
    r := GoScanners(shares);
  }

  /** `k` times the split covers the total, and no smaller positive number does. */
  ghost predicate IsLeast(k: nat, total: nat, split: nat)
  {
    k >= 1 && k * split >= total && forall j :: 1 <= j < k ==> j * split < total
  }

  /** The least `k` with `k * split >= total`. */
  method LeastMultiplier(total: nat, split: nat) returns (k: nat)
    requires split > 0 || total == 0
    ensures k == Quota(total, split)
    ensures IsLeast(k, total, split)
  {
    k := 1;
    while k * split < total
      invariant 1 <= k && (k > 1 ==> (k - 1) * split < total)
      decreases total - k * split
    {
      NextMultiple(k, split);
      k := k + 1;
    }
    QuotaIsLeast(total, split, k);
    forall j | 1 <= j < k
      ensures j * split < total
    {
      FewerTimes(j, k - 1, split);
    }
  }

  lemma FewerTimes(j: nat, k: nat, split: nat)
    requires j <= k
    ensures j * split <= k * split
  {
  }

  /** The first partition of scanner `i`, after the first scanner. */
  ghost function Start(total: nat, split: nat, k: nat, i: nat): int
  {
    total - k * (split - i)
  }

  lemma StartStep(total: nat, split: nat, k: nat, i: nat)
    requires i < split
    ensures Start(total, split, k, i + 1) == if i == 0 then Left(total, split, k) else Start(total, split, k, i) + k
  {
  }

  /** The inner loop: the next `sliceLen` partitions. */
  method TakeFrom(id: nat, sliceLen: nat) returns (gpids: Share)
    ensures gpids == Ascending(id, id + sliceLen)
  {
    gpids := [];
    for j := 0 to sliceLen
      invariant gpids == Ascending(id, id + j)
    {
      gpids := gpids + [id + j];
    }
  }

  lemma NothingTaken(total: nat, split: nat, k: nat)
    ensures Flat([]) == Ascending(0, 0)
    ensures Start(total, split, k, split) == total
    ensures split == 0 ==> Left(total, split, k) >= 0
  {
  }

  lemma AppendedAbove(shares: seq<Share>, gpids: Share, id: nat, sliceLen: nat)
    requires Flat(shares) == Ascending(0, id) && gpids == Ascending(id, id + sliceLen)
    ensures Flat(shares + [gpids]) == Ascending(0, id + sliceLen) && |gpids| == sliceLen
  {
    assert (shares + [gpids])[..|shares|] == shares;
  }

  lemma NextMultiple(k: nat, split: nat)
    requires split > 0
    ensures (k + 1) * split > k * split
  {
  }

  lemma QuotaIsLeast(total: nat, split: nat, k: nat)
    requires split > 0 || total == 0
    requires k >= 1 && k * split >= total && (k > 1 ==> (k - 1) * split < total)
    ensures k == Quota(total, split)
  {
    if total > 0 {
      var rest := total + split - 1 - k * split;
      assert (k - 1) * split == k * split - split;
      ModuloUnique(total + split - 1, split, k, rest);
    }
  }

  /** Eight partitions for at most seven Go scanners: the split panics. */
  lemma EightBySevenPanics()
    ensures Left(8, Split(8, 7), Quota(8, Split(8, 7))) < 0
  {
  }

  /** A split count that divides the number of partitions never panics. */
  lemma DivisorNeverPanics(total: nat, split: nat)
    requires split > 0 && total % split == 0
    ensures Left(total, split, Quota(total, split)) >= 0 || total == 0
  {
    if total > 0 {
      var q := total / split;
      assert total + split - 1 == split * q + (split - 1);
      ModuloUnique(total + split - 1, split, q, split - 1);
      assert q * (split - 1) == total - q;
    }
  }
}
