/** Which sort keys a scan of one hash key enumerates: those in the requested range that pass
    the filter, each once. */
module RangeKeys {

  import opened Bytes
  import opened Common
  import opened KeyCodec
  import opened ScanProgress
  import opened ScanRange
  import opened ScanServer

  /** The sort key of a scanned record. */
  function SortKeyOf(kv: KeyValue): ByteString
  {
    match Restore(kv.key)
    case Keys(_, sortKey) => sortKey
    case _ => []
  }

  function SortKeys(kvs: seq<KeyValue>): (keys: seq<ByteString>)
    ensures |keys| == |kvs|
  {
    seq(|kvs|, i requires 0 <= i < |kvs| => SortKeyOf(kvs[i]))
  }

  /** The records the server accepts: those its own tests let through, `alive`, and whose sort
      key passes the filter. */
  predicate Accepted(filter: Filter, alive: KeyValue -> bool, kv: KeyValue)
  {
    alive(kv) && Restore(kv.key).Keys? && Passes(filter, SortKeyOf(kv))
  }

  /** The request a scan of one hash key sends: no filter on the hash key, so no floor. */
  function Query(scanned: Range, filter: Filter, alive: KeyValue -> bool): ScanRequest
  {
    ScanRequest(scanned.start, scanned.startInclusive, scanned.stop, scanned.stopInclusive, [],
                kv => Accepted(filter, alive, kv))
  }

  lemma QueryWellFormed(scanned: Range, filter: Filter, alive: KeyValue -> bool)
    ensures Query(scanned, filter, alive).WellFormed()
  {
  }

  lemma QuerySelects(scanned: Range, filter: Filter, alive: KeyValue -> bool, kv: KeyValue)
    ensures Query(scanned, filter, alive).Selects(kv) <==> scanned.Holds(kv.key) && Accepted(filter, alive, kv)
  {
  }

  /** Whether the sort key is asked for: the partition holds an accepted record with that key,
      in the requested range. */
  ghost predicate Wanted(
    partition: seq<KeyValue>, hashKey: ByteString, requested: Range, filter: Filter, alive: KeyValue -> bool, s: ByteString)
  {
    && requested.Holds(Encode(hashKey, s)) && Passes(filter, s)
    && exists kv :: kv in partition && kv.key == Encode(hashKey, s) && alive(kv)
  }

  /** Each wanted sort key is listed exactly once, and nothing else is. */
  ghost predicate ListsWanted(
    keys: seq<ByteString>, partition: seq<KeyValue>, hashKey: ByteString, requested: Range, filter: Filter,
    alive: KeyValue -> bool)
  {
    forall s :: multiset(keys)[s] == if Wanted(partition, hashKey, requested, filter, alive, s) then 1 else 0
  }

  /** Nothing but wanted sort keys is listed, repeated or not. */
  ghost predicate OnlyWanted(
    keys: seq<ByteString>, partition: seq<KeyValue>, hashKey: ByteString, requested: Range, filter: Filter,
    alive: KeyValue -> bool)
  {
    forall s <- keys :: Wanted(partition, hashKey, requested, filter, alive, s)
  }

  /** No wanted sort key is missing. */
  ghost predicate AllWanted(
    keys: seq<ByteString>, partition: seq<KeyValue>, hashKey: ByteString, requested: Range, filter: Filter,
    alive: KeyValue -> bool)
  {
    forall s :: Wanted(partition, hashKey, requested, filter, alive, s) ==> s in keys
  }

  /** The scan of one hash key that the client has opened for `requested`. */
  ghost predicate OpenedFor(
    job: Job, hashKey: ByteString, requested: Range, filter: Filter, alive: KeyValue -> bool, begin: ByteString, end: ByteString)
  {
    && job.Valid() && |job.slice| == 1 && 0 < |hashKey| <= 65533
    && requested.start == Encode(hashKey, begin) && requested.stop == Encode(hashKey, end)
    && Effective(requested, hashKey, filter).Scannable()
    && job.query == Query(Effective(requested, hashKey, filter), filter, alive)
  }

  lemma OpenedPreserves(requested: Range, hashKey: ByteString, filter: Filter, begin: ByteString, end: ByteString, s: ByteString)
    requires requested.start == Encode(hashKey, begin) && requested.stop == Encode(hashKey, end)
    requires Effective(requested, hashKey, filter).Scannable()
    ensures Preserved(requested, Effective(requested, hashKey, filter), hashKey, filter, s)
  {
    hide Encode, Preserved, LosesMatches, Effective, Range.Scannable;
    UnscannableWhenStuck(requested, hashKey, filter, end);
    RewritePreserves(requested, hashKey, filter, end);
  }

  lemma SortKeyOfEncoded(hashKey: ByteString, s: ByteString, kv: KeyValue)
    requires |hashKey| <= 65533 && kv.key == Encode(hashKey, s)
    ensures Restore(kv.key).Keys? && SortKeyOf(kv) == s
  {
    hide Encode, Restore;
    RestoreEncode(hashKey, s);
  }

  /** A record the scan selects has the scan's hash key and a wanted sort key. */
  lemma SelectedIsWanted(
    job: Job, hashKey: ByteString, requested: Range, filter: Filter, alive: KeyValue -> bool, begin: ByteString, end: ByteString,
    kv: KeyValue)
    requires OpenedFor(job, hashKey, requested, filter, alive, begin, end)
    requires kv in job.partitions[job.slice[0]] && job.query.Selects(kv)
    ensures kv.key == Encode(hashKey, SortKeyOf(kv))
    ensures Wanted(job.partitions[job.slice[0]], hashKey, requested, filter, alive, SortKeyOf(kv))
  {
    hide Encode, Restore, Effective, Query, Passes, Range.Scannable, Range.Holds, ScanRequest.Selects, Job.Valid;
    var scanned := Effective(requested, hashKey, filter);
    QuerySelects(scanned, filter, alive, kv);
    var s := ScannedUnderHashKey(requested, hashKey, filter, begin, end, kv.key);
    SortKeyOfEncoded(hashKey, s, kv);
    OpenedPreserves(requested, hashKey, filter, begin, end, s);
  }

  lemma WantedIsSelected(
    job: Job, hashKey: ByteString, requested: Range, filter: Filter, alive: KeyValue -> bool, begin: ByteString, end: ByteString,
    s: ByteString) returns (kv: KeyValue)
    requires OpenedFor(job, hashKey, requested, filter, alive, begin, end)
    requires Wanted(job.partitions[job.slice[0]], hashKey, requested, filter, alive, s)
    ensures kv in job.partitions[job.slice[0]] && job.query.Selects(kv) && SortKeyOf(kv) == s
  {
    hide Encode, Restore, Effective, Query, Passes, Range.Scannable, Range.Holds, ScanRequest.Selects, Sorted, ScanRequest.WellFormed;
    kv :| kv in job.partitions[job.slice[0]] && kv.key == Encode(hashKey, s) && alive(kv);
    SortKeyOfEncoded(hashKey, s, kv);
    OpenedPreserves(requested, hashKey, filter, begin, end, s);
    QuerySelects(Effective(requested, hashKey, filter), filter, alive, kv);
  }

  lemma {:induction false} SelectSorted(s: seq<KeyValue>, q: ScanRequest)
    requires Sorted(s)
    ensures Sorted(Select(s, q))
  {
    if s != [] {
      SelectSorted(s[1..], q);
      SelectMembers(s[1..], q);
      var t := Select(s[1..], q);
      forall i | 0 <= i < |t|
        ensures Less(s[0].key, t[i].key)
      {
        assert t[i] in s[1..];
      }
    }
  }

  lemma {:induction false} SelectedListed(s: seq<KeyValue>, q: ScanRequest, kv: KeyValue)
    requires kv in s && q.Selects(kv)
    ensures kv in Select(s, q)
  {
    if s[0] != kv {
      SelectedListed(s[1..], q, kv);
    }
  }

  lemma ExpectedOfOne(job: Job)
    requires job.Valid() && |job.slice| == 1
    ensures job.Expected() == Select(job.partitions[job.slice[0]], job.query)
    ensures Sorted(job.Expected())
    ensures forall i :: 0 <= i < |job.Expected()| ==>
              job.Expected()[i] in job.partitions[job.slice[0]] && job.query.Selects(job.Expected()[i])
  {
    var raw := job.partitions[job.slice[0]];
    assert job.Head(1) == [] && job.Expected() == Select(raw, job.query);
    SelectSorted(raw, job.query);
    SelectMembers(raw, job.query);
  }

  lemma EnumeratesOnce(
    job: Job, hashKey: ByteString, requested: Range, filter: Filter, alive: KeyValue -> bool, begin: ByteString, end: ByteString)
    requires OpenedFor(job, hashKey, requested, filter, alive, begin, end)
    ensures Distinct(SortKeys(job.Expected()))
  {
    hide Encode, Restore, Effective, Query, Passes, Range.Scannable, Less, Job.Expected, ScanRequest.Selects, SortKeyOf;
    ExpectedOfOne(job);
    var e := job.Expected();
    forall i, j | 0 <= i < j < |e|
      ensures SortKeyOf(e[i]) != SortKeyOf(e[j])
    {
      SelectedIsWanted(job, hashKey, requested, filter, alive, begin, end, e[i]);
      SelectedIsWanted(job, hashKey, requested, filter, alive, begin, end, e[j]);
      LessAsymmetric(e[i].key, e[j].key);
    }
  }

  lemma {:induction false} DistinctCounts(keys: seq<ByteString>, s: ByteString)
    requires Distinct(keys)
    ensures multiset(keys)[s] == if s in keys then 1 else 0
  {
    if keys != [] {
      var n := |keys| - 1;
      assert keys == keys[..n] + [keys[n]];
      DistinctCounts(keys[..n], s);
    }
  }

  /** The scan enumerates each wanted sort key exactly once, and nothing else. */
  lemma EnumeratesWanted(
    job: Job, hashKey: ByteString, requested: Range, filter: Filter, alive: KeyValue -> bool, begin: ByteString, end: ByteString)
    requires OpenedFor(job, hashKey, requested, filter, alive, begin, end)
    ensures ListsWanted(SortKeys(job.Expected()), job.partitions[job.slice[0]], hashKey, requested, filter, alive)
  {
    hide Job.Expected, Wanted, ScanRequest.Selects, Effective, Query, Range.Scannable, SortKeyOf, Encode, Select;
    var e, partition := job.Expected(), job.partitions[job.slice[0]];
    var keys := SortKeys(e);
    EnumeratesOnce(job, hashKey, requested, filter, alive, begin, end);
    ExpectedOfOne(job);
    forall s
      ensures multiset(keys)[s] == if Wanted(partition, hashKey, requested, filter, alive, s) then 1 else 0
    {
      DistinctCounts(keys, s);
      if s in keys {
        var i :| 0 <= i < |keys| && keys[i] == s;
        SelectedIsWanted(job, hashKey, requested, filter, alive, begin, end, e[i]);
      }
      if Wanted(partition, hashKey, requested, filter, alive, s) {
        var kv := WantedIsSelected(job, hashKey, requested, filter, alive, begin, end, s);
        SelectedListed(partition, job.query, kv);
        var i :| 0 <= i < |e| && e[i] == kv;
        assert keys[i] == s;
      }
    }
  }

  /** Records expected of the scan, in any order and number, name only wanted sort keys. */
  lemma ExpectedOnlyWanted(
    job: Job, hashKey: ByteString, requested: Range, filter: Filter, alive: KeyValue -> bool, begin: ByteString, end: ByteString,
    kvs: seq<KeyValue>)
    requires OpenedFor(job, hashKey, requested, filter, alive, begin, end)
    requires AllIn(kvs, job.Expected())
    ensures OnlyWanted(SortKeys(kvs), job.partitions[job.slice[0]], hashKey, requested, filter, alive)
  {
    hide Job.Expected, Wanted, ScanRequest.Selects, Effective, Query, Range.Scannable, SortKeyOf, Encode, Select;
    ExpectedOfOne(job);
    var e, keys := job.Expected(), SortKeys(kvs);
    forall s | s in keys
      ensures Wanted(job.partitions[job.slice[0]], hashKey, requested, filter, alive, s)
    {
      var i :| 0 <= i < |keys| && keys[i] == s;
      assert kvs[i] in kvs;
      var j :| 0 <= j < |e| && e[j] == kvs[i];
      SelectedIsWanted(job, hashKey, requested, filter, alive, begin, end, e[j]);
    }
  }

  /** Records that include every expected one name every wanted sort key. */
  lemma ExpectedAllWanted(
    job: Job, hashKey: ByteString, requested: Range, filter: Filter, alive: KeyValue -> bool, begin: ByteString, end: ByteString,
    kvs: seq<KeyValue>)
    requires OpenedFor(job, hashKey, requested, filter, alive, begin, end)
    requires AllIn(job.Expected(), kvs)
    ensures AllWanted(SortKeys(kvs), job.partitions[job.slice[0]], hashKey, requested, filter, alive)
  {
    hide Job.Expected, Wanted, ScanRequest.Selects, Effective, Query, Range.Scannable, SortKeyOf, Encode, Select;
    ExpectedOfOne(job);
    var keys, partition := SortKeys(kvs), job.partitions[job.slice[0]];
    forall s | Wanted(partition, hashKey, requested, filter, alive, s)
      ensures s in keys
    {
      var kv := WantedIsSelected(job, hashKey, requested, filter, alive, begin, end, s);
      SelectedListed(partition, job.query, kv);
      var i :| 0 <= i < |kvs| && kvs[i] == kv;
      assert keys[i] == s;
    }
  }

  lemma {:induction false} SeekSkips(front: seq<KeyValue>, rest: seq<KeyValue>, q: ScanRequest)
    requires forall i :: 0 <= i < |front| ==> q.PassesOver(front[i])
    ensures Seek(front + rest, q) == Seek(rest, q)
  {
    if front == [] {
      assert front + rest == rest;
    } else {
      assert (front + rest)[1..] == front[1..] + rest;
      SeekSkips(front[1..], rest, q);
    }
  }

  /** Deleting records up to the last one received changes nothing that a resumed scan reads. */
  lemma DeletionsUnseen(
    deleted: seq<KeyValue>, kept: seq<KeyValue>, rest: seq<KeyValue>, q: ScanRequest, last: ByteString)
    requires q.floor == []
    requires forall i :: 0 <= i < |deleted| ==> AtMost(deleted[i].key, last)
    requires forall i :: 0 <= i < |kept| ==> AtMost(kept[i].key, last)
    ensures Seek(kept + rest, q.After(last)) == Seek(deleted + rest, q.After(last))
  {
    assert !Less(last, []);
    SeekSkips(deleted, rest, q.After(last));
    SeekSkips(kept, rest, q.After(last));
  }
}
