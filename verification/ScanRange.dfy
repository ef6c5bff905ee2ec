/** Opening a scanner under one hash key: the key range, its narrowing by a prefix filter on
    the sort key, and the partition it is sent to. */
module ScanRange {

  import opened Bytes
  import opened Common
  import opened Crc64
  import opened KeyCodec
  import opened Routing

  datatype Filter = NoFilter | MatchAnywhere(pattern: ByteString) | MatchPrefix(pattern: ByteString) | MatchPostfix(pattern: ByteString)

  /** A key range with the inclusivity of its ends. */
  datatype Range = Range(start: ByteString, startInclusive: bool, stop: ByteString, stopInclusive: bool)
  {
    predicate Holds(x: ByteString)
    {
      && (Less(start, x) || (startInclusive && start == x))
      && (Less(x, stop) || (stopInclusive && x == stop))
    }

    /** The client's test for a range worth scanning. */
    predicate Scannable()
    {
      Less(start, stop) || (start == stop && startInclusive && stopInclusive)
    }
  }

  const MAX_SORT_KEY: ByteString := [0xFF, 0xFF]

  /** The range the arguments ask for; without a stop key it ends before the sort key FF FF. */
  function RequestedRange(
    hashKey: ByteString, startSortKey: ByteString, stopSortKey: ByteString,
    startInclusive: bool, stopInclusive: bool): Range
  {
    if stopSortKey == [] then
      Range(Encode(hashKey, startSortKey), startInclusive, Encode(hashKey, MAX_SORT_KEY), false)
    else
      Range(Encode(hashKey, startSortKey), startInclusive, Encode(hashKey, stopSortKey), stopInclusive)
  }

  /** The range cut down to the keys that start with `prefix` and end before `next`. */
  function Narrowed(r: Range, prefix: ByteString, next: ByteString): Range
  {
    var low := if Less(r.start, prefix) then r.(start := prefix, startInclusive := true) else r;
    if AtMost(next, low.stop) then low.(stop := next, stopInclusive := false) else low
  }

  /** Narrowing keeps exactly the keys between `prefix` and `next`, where the narrowed ends
      are reached. */
  lemma NarrowedHolds(r: Range, prefix: ByteString, next: ByteString, x: ByteString)
    requires AtMost(prefix, x) && Less(x, next)
    ensures Narrowed(r, prefix, next).Holds(x) <==> r.Holds(x)
  {
    if Less(r.start, prefix) {
      AtMostTransitive(r.start, prefix, x);
    }
    if AtMost(next, r.stop) {
      AtMostTransitive(x, next, r.stop);
    }
  }

  lemma UnscannableIsEmpty(r: Range, x: ByteString)
    requires !r.Scannable()
    ensures !r.Holds(x)
  {
    if r.Holds(x) {
      AtMostTransitive(r.start, x, r.stop);
      if r.start == r.stop && Less(r.start, x) {
        LessAsymmetric(r.start, x);
      }
    }
  }

  /** The first key extending `key` that the range can hold, if it can hold one. */
  function FirstExtension(r: Range, key: ByteString): Option<ByteString>
  {
    if Less(r.start, key) || (r.start == key && r.startInclusive) then Some(key)
    else if key <= r.start then Some(if r.startInclusive then r.start else r.start + [0])
    else None
  }

  /** Whether the range holds an extension of `key`, read off its ends. */
  predicate HoldsExtension(r: Range, key: ByteString)
  {
    var first := FirstExtension(r, key);
    first.Some? && (Less(first.value, r.stop) || (first.value == r.stop && r.stopInclusive))
  }

  lemma {:induction false} ImmediateSuccessor(a: ByteString, x: ByteString)
    ensures Less(a, x) <==> AtMost(a + [0], x)
  {
    if a == [] {
      assert a + [0] == [0] && [0][1..] == [];
      if x != [] && x[0] == 0 {
        assert x == [0] + x[1..];
        assert AtMost([], x[1..]);
      }
    } else if x != [] {
      assert (a + [0])[1..] == a[1..] + [0];
      ImmediateSuccessor(a[1..], x[1..]);
      assert a + [0] == [a[0]] + (a[1..] + [0]) && x == [x[0]] + x[1..];
    }
  }

  /** Without a first extension, no extension of `key` lies at or above the start. */
  lemma ExtensionAgainstStart(r: Range, key: ByteString, x: ByteString)
    requires key <= x && FirstExtension(r, key).None?
    ensures !Less(r.start, x) && r.start != x
  {
    PrefixAtMost(key, x);
    LessTotal(r.start, key);
    if Less(r.start, x) && key != x {
      assert x == key + x[|key|..];
      if Less(key, r.start) {
        BetweenExtends(key, x[|key|..], r.start);
      }
    }
    if Less(r.start, x) && key == x {
      assert false;
    }
  }

  lemma HoldsExtensionIsExact(r: Range, key: ByteString)
    ensures HoldsExtension(r, key) <==> exists x :: key <= x && r.Holds(x)
  {
    var first := FirstExtension(r, key);
    if HoldsExtension(r, key) {
      ImmediateSuccessor(r.start, r.start + [0]);
      assert key <= first.value && r.Holds(first.value);
    }
    forall x | key <= x && r.Holds(x)
      ensures HoldsExtension(r, key)
    {
      PrefixAtMost(key, x);
      if first.None? {
        ExtensionAgainstStart(r, key, x);
        assert false;
      }
      ImmediateSuccessor(r.start, x);
      AtMostTransitive(first.value, x, r.stop);
    }
  }

  /** The range actually scanned: a prefix filter on the sort key narrows the requested one. */
  function Effective(r: Range, hashKey: ByteString, filter: Filter): Range
  {
    if filter.MatchPrefix? then
      var key := Encode(hashKey, filter.pattern);
      Narrowed(r, key, Successor(key))
    else r
  }

  /** Whether the filter lets a sort key through. */
  predicate Passes(filter: Filter, sortKey: ByteString)
  {
    match filter
    case NoFilter => true
    case MatchAnywhere(pattern) => exists i :: 0 <= i <= |sortKey| && pattern <= sortKey[i..]
    case MatchPrefix(pattern) => pattern <= sortKey
    case MatchPostfix(pattern) => |pattern| <= |sortKey| && sortKey[|sortKey| - |pattern|..] == pattern
  }

  /** The pattern with something before and behind it. */
  function Around(before: ByteString, pattern: ByteString, behind: ByteString): ByteString
  {
    before + pattern + behind
  }

  lemma PassesAnywhere(pattern: ByteString, sortKey: ByteString)
    ensures Passes(MatchAnywhere(pattern), sortKey) <==> exists a, b :: Around(a, pattern, b) == sortKey
  {
    if Passes(MatchAnywhere(pattern), sortKey) {
      var i :| 0 <= i <= |sortKey| && pattern <= sortKey[i..];
      assert Around(sortKey[..i], pattern, sortKey[i..][|pattern|..]) == sortKey;
    }
    if a, b :| Around(a, pattern, b) == sortKey {
      assert pattern <= sortKey[|a|..];
    }
  }

  lemma PassesPrefix(pattern: ByteString, sortKey: ByteString)
    ensures Passes(MatchPrefix(pattern), sortKey) <==> exists b :: Around([], pattern, b) == sortKey
  {
    if pattern <= sortKey {
      assert Around([], pattern, sortKey[|pattern|..]) == sortKey;
    }
  }

  lemma PassesPostfix(pattern: ByteString, sortKey: ByteString)
    ensures Passes(MatchPostfix(pattern), sortKey) <==> exists a :: Around(a, pattern, []) == sortKey
  {
    if Passes(MatchPostfix(pattern), sortKey) {
      assert Around(sortKey[..|sortKey| - |pattern|], pattern, []) == sortKey;
    }
    if a :| Around(a, pattern, []) == sortKey {
      assert sortKey[|a|..] == pattern;
    }
  }

  /** What the filters mean: no filter lets every key through, and the others exactly the keys that
      contain the pattern, start with it or end in it. */
  lemma PassesMeans(pattern: ByteString, sortKey: ByteString)
    ensures Passes(NoFilter, sortKey)
    ensures Passes(MatchAnywhere(pattern), sortKey) <==> exists a, b :: Around(a, pattern, b) == sortKey
    ensures Passes(MatchPrefix(pattern), sortKey) <==> exists b :: Around([], pattern, b) == sortKey
    ensures Passes(MatchPostfix(pattern), sortKey) <==> exists a :: Around(a, pattern, []) == sortKey
  {
    hide Around;
    PassesAnywhere(pattern, sortKey);
    PassesPrefix(pattern, sortKey);
    PassesPostfix(pattern, sortKey);
  }

  /** The scan of `scanned` treats the sort key as the scan of `requested` would. */
  ghost predicate Preserved(requested: Range, scanned: Range, hashKey: ByteString, filter: Filter, sortKey: ByteString)
  {
    Passes(filter, sortKey) ==>
      (scanned.Holds(Encode(hashKey, sortKey)) <==> requested.Holds(Encode(hashKey, sortKey)))
  }

  /** A prefix filter none of whose bytes, nor those of the hash key, can be incremented, on a
      range that holds a matching key. */
  predicate LosesMatches(requested: Range, hashKey: ByteString, filter: Filter)
  {
    && filter.MatchPrefix?
    && var key := Encode(hashKey, filter.pattern);
       !Incrementable(key) && HoldsExtension(requested, key)
  }

  lemma IncrementablePreserves(requested: Range, hashKey: ByteString, pattern: ByteString, sortKey: ByteString)
    requires Incrementable(Encode(hashKey, pattern))
    ensures Preserved(requested, Effective(requested, hashKey, MatchPrefix(pattern)), hashKey, MatchPrefix(pattern), sortKey)
  {
    hide Encode, Incrementable, Narrowed, Range.Holds, Successor;
    if pattern <= sortKey {
      EncodeOrder(hashKey, pattern, sortKey);
      var key, x := Encode(hashKey, pattern), Encode(hashKey, sortKey);
      EncodeParts(hashKey, pattern);
      ExtensionsBelowSuccessor(key, x);
      NarrowedHolds(requested, key, Successor(key), x);
    }
  }

  /** Without a byte to increment, the narrowed range ends below every key of the hash key. */
  lemma StuckRangeIsEmpty(requested: Range, hashKey: ByteString, pattern: ByteString, end: ByteString)
    requires !Incrementable(Encode(hashKey, pattern))
    requires requested.stop == Encode(hashKey, end)
    ensures var stop := Effective(requested, hashKey, MatchPrefix(pattern)).stop;
            stop == LengthBytes(|hashKey|) && forall sortKey :: !Less(Encode(hashKey, sortKey), stop)
    ensures !Effective(requested, hashKey, MatchPrefix(pattern)).stopInclusive
  {
    hide Incrementable, Less;
    var key := Encode(hashKey, pattern);
    SuccessorWithoutIncrement(key);
    assert key[..2] == LengthBytes(|hashKey|);
    PrefixAtMost(LengthBytes(|hashKey|), requested.stop);
    forall sortKey
      ensures !Less(Encode(hashKey, sortKey), LengthBytes(|hashKey|))
    {
      var x := Encode(hashKey, sortKey);
      PrefixAtMost(LengthBytes(|hashKey|), x);
      if Less(x, LengthBytes(|hashKey|)) {
        LessAsymmetric(x, LengthBytes(|hashKey|));
      }
    }
  }

  /** Every extension of an encoded key is an encoded key of the same hash key. */
  lemma ExtensionIsEncoded(hashKey: ByteString, pattern: ByteString, x: ByteString) returns (sortKey: ByteString)
    requires Encode(hashKey, pattern) <= x
    ensures x == Encode(hashKey, sortKey) && pattern <= sortKey
  {
    sortKey := x[2 + |hashKey|..];
    EncodeParts(hashKey, pattern);
    assert x == LengthBytes(|hashKey|) + hashKey + sortKey;
    EncodeOrder(hashKey, pattern, sortKey);
  }

  /** The rewrite preserves the meaning of the scan for every sort key exactly if no match is
      lost to a prefix of 0xFF bytes. */
  lemma RewritePreserves(requested: Range, hashKey: ByteString, filter: Filter, end: ByteString)
    requires requested.stop == Encode(hashKey, end)
    ensures (forall sortKey :: Preserved(requested, Effective(requested, hashKey, filter), hashKey, filter, sortKey))
       <==> !LosesMatches(requested, hashKey, filter)
  {
    hide Encode, Incrementable, HoldsExtension, Narrowed, Range.Holds, Successor, Less;
    var scanned := Effective(requested, hashKey, filter);
    if filter.MatchPrefix? {
      var key := Encode(hashKey, filter.pattern);
      if Incrementable(key) {
        forall sortKey
          ensures Preserved(requested, scanned, hashKey, filter, sortKey)
        {
          IncrementablePreserves(requested, hashKey, filter.pattern, sortKey);
        }
      } else {
        HoldsExtensionIsExact(requested, key);
        StuckRangeHoldsNothing(requested, hashKey, filter.pattern, end);
        if HoldsExtension(requested, key) {
          var x :| key <= x && requested.Holds(x);
          var sortKey := ExtensionIsEncoded(hashKey, filter.pattern, x);
          assert !Preserved(requested, scanned, hashKey, filter, sortKey);
        } else {
          forall sortKey
            ensures Preserved(requested, scanned, hashKey, filter, sortKey)
          {
            EncodeOrder(hashKey, filter.pattern, sortKey);
          }
        }
      }
    }
  }

  lemma StuckRangeHoldsNothing(requested: Range, hashKey: ByteString, pattern: ByteString, end: ByteString)
    requires !Incrementable(Encode(hashKey, pattern))
    requires requested.stop == Encode(hashKey, end)
    ensures forall sortKey :: !Effective(requested, hashKey, MatchPrefix(pattern)).Holds(Encode(hashKey, sortKey))
  {
    hide Incrementable, Effective, Less, Encode;
    StuckRangeIsEmpty(requested, hashKey, pattern, end);
  }

  /** A range the client refuses as empty held no matching key, again exactly if no match is
      lost to a prefix of 0xFF bytes. */
  lemma RefusedRangeIsEmpty(requested: Range, hashKey: ByteString, filter: Filter, end: ByteString)
    requires requested.stop == Encode(hashKey, end)
    requires !Effective(requested, hashKey, filter).Scannable()
    ensures (forall sortKey :: Passes(filter, sortKey) ==> !requested.Holds(Encode(hashKey, sortKey)))
       <==> !LosesMatches(requested, hashKey, filter)
  {
    hide Encode, Incrementable, HoldsExtension, Effective, Range.Holds, Range.Scannable, Less, Passes;
    var scanned := Effective(requested, hashKey, filter);
    RewritePreserves(requested, hashKey, filter, end);
    forall sortKey
      ensures !scanned.Holds(Encode(hashKey, sortKey))
    {
      UnscannableIsEmpty(scanned, Encode(hashKey, sortKey));
    }
    if !LosesMatches(requested, hashKey, filter) {
      forall sortKey | Passes(filter, sortKey)
        ensures !requested.Holds(Encode(hashKey, sortKey))
      {
        assert Preserved(requested, scanned, hashKey, filter, sortKey);
      }
    } else {
      var sortKey :| !Preserved(requested, scanned, hashKey, filter, sortKey);
      assert Passes(filter, sortKey) && requested.Holds(Encode(hashKey, sortKey));
    }
  }

  /** The requested range in terms of sort keys: a missing stop key stands for FF FF, so sort
      keys from FF FF on are never scanned. */
  lemma RequestedSortKeys(
    hashKey: ByteString, startSortKey: ByteString, stopSortKey: ByteString,
    startInclusive: bool, stopInclusive: bool, sortKey: ByteString)
    ensures RequestedRange(hashKey, startSortKey, stopSortKey, startInclusive, stopInclusive).Holds(Encode(hashKey, sortKey))
       <==> && (Less(startSortKey, sortKey) || (startInclusive && startSortKey == sortKey))
            && (if stopSortKey == [] then Less(sortKey, MAX_SORT_KEY)
                else Less(sortKey, stopSortKey) || (stopInclusive && sortKey == stopSortKey))
  {
    hide Encode, Less;
    EncodeOrder(hashKey, startSortKey, sortKey);
    EncodeOrder(hashKey, sortKey, stopSortKey);
    EncodeOrder(hashKey, sortKey, MAX_SORT_KEY);
  }

  /** Sort key FF FF is missed by a scan that asks for all sort keys of a hash key. */
  lemma HighSortKeyMissed(hashKey: ByteString)
    ensures !RequestedRange(hashKey, [], [], true, true).Holds(Encode(hashKey, MAX_SORT_KEY))
  {
    RequestedSortKeys(hashKey, [], [], true, true, MAX_SORT_KEY);
    LessIrreflexive(MAX_SORT_KEY);
  }

  /** Between a prefix and the successor of one of its extensions lie extensions only. */
  lemma {:induction false} UnderSuccessor(p: ByteString, t: ByteString, x: ByteString)
    requires |p| >= 2 && Incrementable(p + t) && AtMost(p, x) && Less(x, Successor(p + t))
    ensures p <= x
    decreases |t|
  {
    var key := p + t;
    if t == [] {
      assert key == p;
      ExtensionsBelowSuccessor(p, x);
    } else {
      var last := |key| - 1;
      var t' := t[..|t| - 1];
      assert key[..last] == p + t';
      if key[last] != 0xFF {
        assert Successor(key) == p + (t' + [key[last] + 1]);
        BetweenExtends(p, t' + [key[last] + 1], x);
      } else {
        var i :| 2 <= i < |key| && key[i] != 0xFF;
        assert (p + t')[i] != 0xFF;
        UnderSuccessor(p, t', x);
      }
    }
  }

  /** A scan the client opens reaches keys of its hash key only. */
  lemma ScannedUnderHashKey(
    requested: Range, hashKey: ByteString, filter: Filter, begin: ByteString, end: ByteString, x: ByteString)
    returns (sortKey: ByteString)
    requires requested.start == Encode(hashKey, begin) && requested.stop == Encode(hashKey, end)
    requires Effective(requested, hashKey, filter).Scannable() && Effective(requested, hashKey, filter).Holds(x)
    ensures x == Encode(hashKey, sortKey)
  {
    var scanned, p := Effective(requested, hashKey, filter), LengthBytes(|hashKey|) + hashKey;
    var first := if scanned.start == requested.start then begin else filter.pattern;
    assert scanned.start == p + first == Encode(hashKey, first);
    PrefixAtMost(p, scanned.start);
    AtMostTransitive(p, scanned.start, x);
    if scanned.stop == requested.stop {
      assert scanned.stop == p + end;
      if x != scanned.stop {
        BetweenExtends(p, end, x);
      }
    } else {
      if !Incrementable(Encode(hashKey, filter.pattern)) {
        StuckRangeIsEmpty(requested, hashKey, filter.pattern, end);
        assert false;
      }
      assert Encode(hashKey, filter.pattern) == p + filter.pattern;
      UnderSuccessor(p, filter.pattern, x);
    }
    sortKey := x[|p|..];
  }

  /** Scanning hash key FF for sort keys with prefix FF is refused although sort key FF is in
      the range. */
  lemma AllOnesPrefixIsRefused()
    ensures var requested := RequestedRange([0xFF], [], [], true, false);
            && requested.Holds(Encode([0xFF], [0xFF]))
            && LosesMatches(requested, [0xFF], MatchPrefix([0xFF]))
            && !Effective(requested, [0xFF], MatchPrefix([0xFF])).Scannable()
  {
    var requested := RequestedRange([0xFF], [], [], true, false);
    var key := Encode([0xFF], [0xFF]);
    assert key == [0, 1, 0xFF, 0xFF];
    RequestedSortKeys([0xFF], [], [], true, false, [0xFF]);
    assert [0xFF][1..] == [] && MAX_SORT_KEY[1..] == [0xFF];
    HoldsExtensionIsExact(requested, key);
    StuckRangeIsEmpty(requested, [0xFF], [0xFF], MAX_SORT_KEY);
    var scanned := Effective(requested, [0xFF], MatchPrefix([0xFF]));
    EncodeOrder([0xFF], [], [0xFF]);
    assert scanned.start == key;
    assert scanned.stop == [0, 1];
  }

  /** The bytes as machine words. */
  function Octets(data: ByteString): (octets: seq<bv8>)
    ensures |octets| == |data| && forall i :: 0 <= i < |data| ==> octets[i] == data[i] as bv8
  {
    seq(|data|, i requires 0 <= i < |data| => data[i] as bv8)
  }

  /** The hash of a key as an unsigned integer. */
  function Hash(data: ByteString): nat
  {
    Value(Checksum(Octets(data)))
  }

  datatype Gpid = Gpid(index: nat, hash: nat) | Unknown | LookupPanic

  /** The partition of an encoded key, with the end of the hash key computed in 16 bits. */
  function GetGpid(key: ByteString, count: nat): Gpid
    requires count > 0
  {
    if |key| < 2 then Unknown
    else
      var hashKeyLen := LengthField(key);
      var end := (2 + hashKeyLen) % UINT16;
      if hashKeyLen == 0xFFFF || end > |key| then Unknown
      else if hashKeyLen == 0 then Gpid(Hash(key[2..]) % count, Hash(key[2..]))
      else if end < 2 then LookupPanic
      else Gpid(Hash(key[2..end]) % count, Hash(key[2..end]))
  }

  /** A key is looked up under the hash of its hash key, or of its sort key when the hash key
      is empty, exactly for hash keys of at most 65533 bytes. */
  lemma GpidOfEncoded(hashKey: ByteString, sortKey: ByteString, count: nat)
    requires count > 0 && |hashKey| < UINT16
    ensures var hashed := if hashKey == [] then sortKey else hashKey;
            GetGpid(Encode(hashKey, sortKey), count) ==
            if |hashKey| <= 65533 then Gpid(Hash(hashed) % count, Hash(hashed))
            else if |hashKey| == 65534 then LookupPanic
            else Unknown
  {
    hide Encode, LengthField, Hash;
    EncodeParts(hashKey, sortKey);
  }

  class ScannerOptions {
    var startInclusive: bool
    var stopInclusive: bool
    const sortKeyFilter: Filter

    constructor (startInclusive: bool, stopInclusive: bool, sortKeyFilter: Filter)
      ensures this.startInclusive == startInclusive && this.stopInclusive == stopInclusive
      ensures this.sortKeyFilter == sortKeyFilter
    {
      this.startInclusive, this.stopInclusive, this.sortKeyFilter := startInclusive, stopInclusive, sortKeyFilter;
    }

    /** The options as asked for, turned into a range. */
    ghost function Requested(hashKey: ByteString, startSortKey: ByteString, stopSortKey: ByteString): Range
      reads this
    {
      RequestedRange(hashKey, startSortKey, stopSortKey, startInclusive, stopInclusive)
    }
  }

  datatype OpenResult =
    | InvalidHashKey
    | EmptyInterval
    | OpenPanic
    | Opened(gpid: Option<int>, hash: nat, start: ByteString, stop: ByteString)

  /** The branch of opening a scanner that handles a prefix filter. */
  method NarrowToPrefix(hashKey: ByteString, options: ScannerOptions, start: ByteString, stop: ByteString)
    returns (start': ByteString, stop': ByteString)
    requires options.sortKeyFilter.MatchPrefix?
    modifies options
    ensures Range(start', options.startInclusive, stop', options.stopInclusive)
         == Effective(Range(start, old(options.startInclusive), stop, old(options.stopInclusive)), hashKey, options.sortKeyFilter)
  {
    start', stop' := start, stop;
    var prefixStart := Encode(hashKey, options.sortKeyFilter.pattern);
    if Less(start, prefixStart) {
      start' := prefixStart;
      options.startInclusive := true;
    }
    var prefixStop := EncodeNextBytesByKeys(hashKey, options.sortKeyFilter.pattern);
    if AtMost(prefixStop, stop) {
      stop' := prefixStop;
      options.stopInclusive := false;
    }
  }

  /** Opens a scanner on one hash key. The options are updated in place; the error of a
      partition lookup that yields nothing is dropped, so the scanner then has no partition. */
  method GetScanner(
    hashKey: ByteString, startSortKey: ByteString, stopSortKey: ByteString, options: ScannerOptions, count: nat)
    returns (r: OpenResult)
    requires count > 0
    modifies options
    ensures r.InvalidHashKey? <==> !(0 < |hashKey| <= 65535)
    ensures r.InvalidHashKey? ==>
              options.startInclusive == old(options.startInclusive) && options.stopInclusive == old(options.stopInclusive)
    ensures !r.InvalidHashKey? ==>
              var scanned := Effective(old(options.Requested(hashKey, startSortKey, stopSortKey)), hashKey, options.sortKeyFilter);
              && options.startInclusive == scanned.startInclusive && options.stopInclusive == scanned.stopInclusive
              && (r.EmptyInterval? <==> !scanned.Scannable())
              && (r.OpenPanic? <==> scanned.Scannable() && |hashKey| == 65534)
              && (r.Opened? ==>
                    && r.start == scanned.start && r.stop == scanned.stop
                    && (r.gpid, r.hash) == if |hashKey| <= 65533 then (Some(Hash(hashKey) % count), Hash(hashKey)) else (None, 0))
    // What the caller sees: refused or not, no wanted key is missed or added.
    ensures !r.InvalidHashKey? ==>
              var requested := old(options.Requested(hashKey, startSortKey, stopSortKey));
              && (r.EmptyInterval? ==>
                    ((forall sortKey :: Passes(options.sortKeyFilter, sortKey) ==> !requested.Holds(Encode(hashKey, sortKey)))
                     <==> !LosesMatches(requested, hashKey, options.sortKeyFilter)))
              && (r.Opened? ==>
                    var scanned := Range(r.start, options.startInclusive, r.stop, options.stopInclusive);
                    forall sortKey :: Preserved(requested, scanned, hashKey, options.sortKeyFilter, sortKey))
  {
    hide Encode, Less, AtMost, Successor, Hash, LosesMatches, Preserved, Passes, Range.Holds, GetGpid;
    if |hashKey| == 0 || |hashKey| > 65535 {
      return InvalidHashKey;
    }
    ghost var requested := options.Requested(hashKey, startSortKey, stopSortKey);
    ghost var end := if stopSortKey == [] then MAX_SORT_KEY else stopSortKey;
    var start := Encode(hashKey, startSortKey);
    var stop: ByteString;
    ghost var startKey := startSortKey;
    if |stopSortKey| == 0 {
      stop := Encode(hashKey, MAX_SORT_KEY);
      options.stopInclusive := false;
    } else {
      stop := Encode(hashKey, stopSortKey);
    }
    if options.sortKeyFilter.MatchPrefix? {
      if Less(start, Encode(hashKey, options.sortKeyFilter.pattern)) {
        startKey := options.sortKeyFilter.pattern;
      }
      start, stop := NarrowToPrefix(hashKey, options, start, stop);
    }
    ghost var scanned := Range(start, options.startInclusive, stop, options.stopInclusive);
    assert scanned == Effective(requested, hashKey, options.sortKeyFilter);
    RewritePreserves(requested, hashKey, options.sortKeyFilter, end);
    if Less(start, stop) || (start == stop && options.startInclusive && options.stopInclusive) {
      UnscannableWhenStuck(requested, hashKey, options.sortKeyFilter, end);
      GpidOfEncoded(hashKey, startKey, count);
      var gpid := GetGpid(start, count);
      match gpid {
        case LookupPanic => r := OpenPanic;
        case Unknown => r := Opened(None, 0, start, stop);
        case Gpid(index, hash) => r := Opened(Some(index), hash, start, stop);
      }
    } else {
      RefusedRangeIsEmpty(requested, hashKey, options.sortKeyFilter, end);
      r := EmptyInterval;
    }
  }

  /** A scan that loses matches is always refused, never opened. */
  lemma UnscannableWhenStuck(requested: Range, hashKey: ByteString, filter: Filter, end: ByteString)
    requires requested.stop == Encode(hashKey, end)
    requires exists begin :: requested.start == Encode(hashKey, begin)
    ensures LosesMatches(requested, hashKey, filter) ==> !Effective(requested, hashKey, filter).Scannable()
  {
    hide Encode, Incrementable, HoldsExtension, Less;
    if LosesMatches(requested, hashKey, filter) {
      StuckRangeIsEmpty(requested, hashKey, filter.pattern, end);
    }
    var begin :| requested.start == Encode(hashKey, begin);
  }
}
