/** A scan the client opens and the server finds empty: a prefix filter on the hash key raises
    the start of the range at the server, which the client does not foresee. The server must
    run without a prefix extractor (`rocksdb_filter_type` "common", or bloom filters disabled);
    with one it aborts on such a request. */
module EmptyRange {

  import opened Bytes
  import opened KeyCodec
  import opened ScanRange
  import opened ScanServer

  /** The request for a scan of one hash key with a prefix filter on the hash key. */
  function FilteredRequest(r: Range, pattern: ByteString, alive: KeyValue -> bool): ScanRequest
  {
    ScanRequest(r.start, r.startInclusive, r.stop, r.stopInclusive, Encode(pattern, []),
                kv => alive(kv) && Restore(kv.key).Keys? && pattern <= Restore(kv.key).hashKey)
  }

  /** The order of hash keys in a partition: by length, then by bytes. */
  predicate HashKeyLess(h: ByteString, h': ByteString)
  {
    |h| < |h'| || (|h| == |h'| && Less(h, h'))
  }

  lemma {:induction false} LessExtends(a: ByteString, b: ByteString, t: ByteString, u: ByteString)
    requires |a| == |b| && Less(a, b)
    ensures Less(a + t, b + u)
  {
    assert (a + t)[1..] == a[1..] + t && (b + u)[1..] == b[1..] + u;
    if a[0] == b[0] {
      LessExtends(a[1..], b[1..], t, u);
    }
  }

  lemma DigitsOrdered(n: nat, m: nat)
    requires n < m
    ensures n / 256 < m / 256 || (n / 256 == m / 256 && n % 256 < m % 256)
  {
  }

  lemma PairsOrdered(a: Byte, a': Byte, b: Byte, b': Byte)
    requires a < b || (a == b && a' < b')
    ensures Less([a, a'], [b, b'])
  {
    assert [a, a'][1..] == [a'] && [b, b'][1..] == [b'];
  }

  lemma LengthsOrdered(n: nat, m: nat)
    requires n < m < UINT16
    ensures |LengthBytes(n)| == |LengthBytes(m)| == 2 && Less(LengthBytes(n), LengthBytes(m))
  {
    hide Less;
    DigitsOrdered(n, m);
    assert n % UINT16 == n && m % UINT16 == m;
    PairsOrdered(n / 256, n % 256, m / 256, m % 256);
  }

  lemma SmallerHashKeyLess(h: ByteString, s: ByteString, h': ByteString, s': ByteString)
    requires HashKeyLess(h, h') && |h'| < UINT16
    ensures Less(Encode(h, s), Encode(h', s'))
  {
    hide LengthBytes, Less;
    var a, b := LengthBytes(|h|), LengthBytes(|h'|);
    assert Encode(h, s) == a + (h + s) && Encode(h', s') == b + (h' + s');
    if |h| < |h'| {
      LengthsOrdered(|h|, |h'|);
      LessExtends(a, b, h + s, h' + s');
    } else {
      LessExtends(h, h', s, s');
      LessUnderPrefix(a, h + s, h' + s');
    }
  }

  /** A range the client opens for a hash key is empty at the server if and only if the filter's
      pattern comes after the hash key in the order of the partition. */
  lemma EmptyIffAfter(
    hashKey: ByteString, pattern: ByteString, begin: ByteString, end: ByteString, r: Range, alive: KeyValue -> bool)
    requires |hashKey| < UINT16 && |pattern| < UINT16
    requires r.start == Encode(hashKey, begin) && r.stop == Encode(hashKey, end) && r.Scannable()
    ensures FilteredRequest(r, pattern, alive).RangeEmpty() <==> HashKeyLess(hashKey, pattern)
  {
    hide Encode;
    var q, floor := FilteredRequest(r, pattern, alive), Encode(pattern, []);
    if HashKeyLess(hashKey, pattern) {
      SmallerHashKeyLess(hashKey, begin, pattern, []);
      SmallerHashKeyLess(hashKey, end, pattern, []);
      assert q.Low() == floor;
    } else {
      FloorNotAbove(hashKey, pattern, begin);
      if floor != r.start {
        LessAsymmetric(floor, r.start);
      }
      LessIrreflexive(r.start);
      assert q.Low() == r.start && q.LowInclusive() == r.startInclusive;
      if Less(r.start, r.stop) {
        LessAsymmetric(r.start, r.stop);
      }
    }
  }

  lemma FloorNotAbove(hashKey: ByteString, pattern: ByteString, begin: ByteString)
    requires |hashKey| < UINT16 && !HashKeyLess(hashKey, pattern)
    ensures AtMost(Encode(pattern, []), Encode(hashKey, begin))
  {
    LessTotal(hashKey, pattern);
    if pattern == hashKey {
      PrefixAtMost(Encode(pattern, []), Encode(hashKey, begin));
    } else {
      SmallerHashKeyLess(pattern, [], hashKey, begin);
    }
  }

  /** Hash key 1 with all its sort keys, filtered by the hash-key prefix 1 1: the client opens
      the scan, and the server answers it as an empty range. */
  lemma OpenedAndEmpty(alive: KeyValue -> bool)
    ensures var r := RequestedRange([1], [], [], true, false);
            && Effective(r, [1], NoFilter) == r && r.Scannable()
            && FilteredRequest(r, [1, 1], alive).WellFormed()
            && FilteredRequest(r, [1, 1], alive).RangeEmpty()
  {
    var r := RequestedRange([1], [], [], true, false);
    EncodeOrder([1], [], MAX_SORT_KEY);
    assert r.Scannable();
    EmptyIffAfter([1], [1, 1], [], MAX_SORT_KEY, r, alive);
    var q := FilteredRequest(r, [1, 1], alive);
    forall kv | q.accepts(kv)
      ensures AtMost(q.floor, kv.key)
    {
      FilterFloor([1, 1], kv.key);
    }
  }

  /** Every key the filter accepts lies at or above the floor. */
  lemma FilterFloor(pattern: ByteString, key: ByteString)
    requires Restore(key).Keys? && pattern <= Restore(key).hashKey
    ensures AtMost(Encode(pattern, []), key)
  {
    hide Restore, Encode, Less, AtMost;
    EncodeRestored(key);
    HashPrefixFloor(pattern, Restore(key).hashKey, Restore(key).sortKey);
  }
}
