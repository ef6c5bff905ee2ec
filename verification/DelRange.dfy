/** Deleting a range of sort keys: scan the range and delete what it yields in batches. */
module DelRange {

  import opened Bytes
  import opened Common
  import opened KeyCodec
  import opened RangeKeys
  import opened ScanProgress
  import opened ScanRange
  import opened ScanServer
  import opened Scanner

  const BATCH_SIZE := 1000

  function Concat(batches: seq<seq<ByteString>>): seq<ByteString>
  {
    if batches == [] then [] else Concat(batches[..|batches| - 1]) + batches[|batches| - 1]
  }

  /** Batches sent for deletion: none empty, none over the limit. */
  predicate Batched(batches: seq<seq<ByteString>>)
  {
    forall i :: 0 <= i < |batches| ==> 0 < |batches[i]| <= BATCH_SIZE
  }

  class Deletions {
    /** The batches whose deletion was acknowledged, in order. */
    var acknowledged: seq<seq<ByteString>>
    /** How many deletions were not acknowledged. */
    ghost var failures: nat

    constructor ()
      ensures acknowledged == [] && failures == 0
    {
      acknowledged, failures := [], 0;
    }

    method MultiDel(sortKeys: seq<ByteString>) returns (ok: bool)
      modifies this
      ensures acknowledged == if ok then old(acknowledged) + [sortKeys] else old(acknowledged)
      ensures failures == if ok then old(failures) else old(failures) + 1
    {
      ok := *;
      if ok {
        acknowledged := acknowledged + [sortKeys];
      } else {
        failures := failures + 1;
      }
    }
  }

  class DelRangeOptions {
    const startInclusive: bool
    const stopInclusive: bool
    const sortKeyFilter: Filter
    var nextSortKey: Option<ByteString>

    constructor (startInclusive: bool, stopInclusive: bool, sortKeyFilter: Filter)
      ensures this.startInclusive == startInclusive && this.stopInclusive == stopInclusive
      ensures this.sortKeyFilter == sortKeyFilter && nextSortKey == None
    {
      this.startInclusive, this.stopInclusive, this.sortKeyFilter := startInclusive, stopInclusive, sortKeyFilter;
      nextSortKey := None;
    }

    /** The range asked for. */
    function Requested(hashKey: ByteString, startSortKey: Option<ByteString>, stopSortKey: ByteString): Range
    {
      RequestedRange(hashKey, OrEmpty(startSortKey), stopSortKey, startInclusive, stopInclusive)
    }
  }

  function OrEmpty(key: Option<ByteString>): ByteString
  {
    if key.None? then [] else key.value
  }

  /** Which sort keys a deletion asks for, in terms of its arguments: those from the start key on,
      if there is one, up to the stop key or, without one, up to FF FF. */
  lemma RequestedInRange(
    options: DelRangeOptions, hashKey: ByteString, startSortKey: Option<ByteString>, stopSortKey: ByteString, s: ByteString)
    ensures options.Requested(hashKey, startSortKey, stopSortKey).Holds(Encode(hashKey, s)) <==>
            && (match startSortKey
                case None => options.startInclusive || s != []
                case Some(begin) => Less(begin, s) || (begin == s && options.startInclusive))
            && (if stopSortKey == [] then Less(s, [0xFF, 0xFF])
                else Less(s, stopSortKey) || (s == stopSortKey && options.stopInclusive))
  {
    hide Encode;
    RequestedSortKeys(hashKey, OrEmpty(startSortKey), stopSortKey, options.startInclusive, options.stopInclusive, s);
  }

  datatype DelRangeResult =
    | Done
    | NotOpened(outcome: OpenResult)
    | NoPartition
    | ScanFailed(error: NextError)
    | KeyUnreadable
    | KeyPanic
    | DeleteFailed(sortKey: ByteString, index: nat)

  /** The sort key noted for a retry once `index` keys have gone in full batches. */
  function NotedKey(startSortKey: Option<ByteString>, keys: seq<ByteString>, index: nat): Option<ByteString>
  {
    if BATCH_SIZE <= index < |keys| + BATCH_SIZE then Some(keys[index - BATCH_SIZE]) else startSortKey
  }

  /** The sort keys the scan enumerated: a record whose key cannot be split ends it. */
  function Enumerated(r: DelRangeResult, emitted: seq<KeyValue>): seq<ByteString>
  {
    if (r.KeyUnreadable? || r.KeyPanic?) && emitted != [] then SortKeys(emitted[..|emitted| - 1]) else SortKeys(emitted)
  }

  /** What a result says of the keys enumerated by the scan, the batches acknowledged as
      deleted and the key noted for a retry. */
  ghost predicate Explains(
    r: DelRangeResult, keys: seq<ByteString>, acknowledged: seq<seq<ByteString>>,
    noted: Option<ByteString>, startSortKey: Option<ByteString>)
  {
    && Batched(acknowledged)
    && Concat(acknowledged) <= keys
    && (r.Done? ==> Concat(acknowledged) == keys)
    && (r.DeleteFailed? ==>
          && r.index < |keys| && r.sortKey == keys[r.index]
          && Concat(acknowledged) == keys[..r.index])
    && noted ==
         if r.Done? && |keys| % BATCH_SIZE != 0 then None
         else if r.DeleteFailed? && |keys| == r.index + BATCH_SIZE then Some(keys[r.index])
         else NotedKey(startSortKey, keys, |keys| / BATCH_SIZE * BATCH_SIZE)
  }

  /** The loop's progress: the keys enumerated are those deleted and those still collected. */
  ghost predicate Collecting(
    keys: seq<ByteString>, acknowledged: seq<seq<ByteString>>, sortKeys: seq<ByteString>, index: nat,
    noted: Option<ByteString>, startSortKey: Option<ByteString>)
  {
    && Batched(acknowledged) && |sortKeys| < BATCH_SIZE
    && keys == Concat(acknowledged) + sortKeys
    && index == |Concat(acknowledged)| == |keys| / BATCH_SIZE * BATCH_SIZE
    && noted == NotedKey(startSortKey, keys, index)
  }

  lemma Interrupted(
    r: DelRangeResult, keys: seq<ByteString>, acknowledged: seq<seq<ByteString>>, sortKeys: seq<ByteString>, index: nat,
    noted: Option<ByteString>, startSortKey: Option<ByteString>)
    requires Collecting(keys, acknowledged, sortKeys, index, noted, startSortKey)
    requires !r.DeleteFailed? && (r.Done? ==> sortKeys == [])
    ensures Explains(r, keys, acknowledged, noted, startSortKey)
  {
  }

  lemma Collected(
    keys: seq<ByteString>, acknowledged: seq<seq<ByteString>>, sortKeys: seq<ByteString>, index: nat,
    noted: Option<ByteString>, startSortKey: Option<ByteString>, s: ByteString)
    requires Collecting(keys, acknowledged, sortKeys, index, noted, startSortKey)
    requires |sortKeys| + 1 < BATCH_SIZE
    ensures Collecting(keys + [s], acknowledged, sortKeys + [s], index, noted, startSortKey)
  {
  }

  /** A full batch, deleted, leaves nothing collected. */
  lemma FullBatchDeleted(
    keys: seq<ByteString>, acknowledged: seq<seq<ByteString>>, sortKeys: seq<ByteString>, index: nat,
    noted: Option<ByteString>, startSortKey: Option<ByteString>, s: ByteString)
    requires Collecting(keys, acknowledged, sortKeys, index, noted, startSortKey)
    requires |sortKeys| + 1 == BATCH_SIZE
    ensures var batch := sortKeys + [s];
            Collecting(keys + [s], acknowledged + [batch], [], index + BATCH_SIZE, Some(batch[0]), startSortKey)
  {
    hide Batched;
    var batch, all := sortKeys + [s], keys + [s];
    assert (acknowledged + [batch])[..|acknowledged|] == acknowledged;
    assert all == Concat(acknowledged) + batch == Concat(acknowledged + [batch]) + [];
    FullCount(|keys|, index);
    assert all[index] == batch[0];
    BatchedMore(acknowledged, batch);
  }

  lemma FullCount(n: nat, index: nat)
    requires index == n / BATCH_SIZE * BATCH_SIZE && n + 1 == index + BATCH_SIZE
    ensures (n + 1) / BATCH_SIZE * BATCH_SIZE == index + BATCH_SIZE
  {
  }

  lemma BatchedMore(batches: seq<seq<ByteString>>, batch: seq<ByteString>)
    requires Batched(batches) && 0 < |batch| <= BATCH_SIZE
    ensures Batched(batches + [batch])
  {
  }

  /** A full batch that fails starts at the key noted for a retry. */
  lemma FullBatchFailed(
    keys: seq<ByteString>, acknowledged: seq<seq<ByteString>>, sortKeys: seq<ByteString>, index: nat,
    noted: Option<ByteString>, startSortKey: Option<ByteString>, s: ByteString)
    requires Collecting(keys, acknowledged, sortKeys, index, noted, startSortKey)
    requires |sortKeys| + 1 == BATCH_SIZE
    ensures var batch := sortKeys + [s];
            Explains(DeleteFailed(batch[0], index), keys + [s], acknowledged, Some(batch[0]), startSortKey)
  {
    var batch := sortKeys + [s];
    assert keys + [s] == Concat(acknowledged) + batch;
    assert (keys + [s])[..index] == Concat(acknowledged);
  }

  /** The last, partial batch. */
  lemma LastBatch(
    keys: seq<ByteString>, acknowledged: seq<seq<ByteString>>, sortKeys: seq<ByteString>, index: nat,
    noted: Option<ByteString>, startSortKey: Option<ByteString>)
    requires Collecting(keys, acknowledged, sortKeys, index, noted, startSortKey)
    requires sortKeys != []
    ensures Explains(Done, keys, acknowledged + [sortKeys], None, startSortKey)
    ensures Explains(DeleteFailed(sortKeys[0], index), keys, acknowledged, noted, startSortKey)
  {
    assert (acknowledged + [sortKeys])[..|acknowledged|] == acknowledged;
    assert keys[..index] == Concat(acknowledged);
  }

  /** The scan a deletion makes: of the hash key's partition, for the effective range. */
  ghost function ScanJob(
    server: ReplicaServer, hashKey: ByteString, requested: Range, filter: Filter, alive: KeyValue -> bool): Job
    requires |server.partitions| > 0
  {
    Job(server.partitions, server.dense, [Hash(hashKey) % |server.partitions|],
        Query(Effective(requested, hashKey, filter), filter, alive))
  }

  /** Why a scan failed: the first new fault says so, or the deadline came before `cost` RPCs. */
  ghost predicate ScanBlamed(error: NextError, before: seq<Fault>, after: seq<Fault>, budget: nat, cost: nat)
  {
    match error
    case RpcError => before + [Lost] <= after
    case ServerError(code) => before + [Refused(code)] <= after
    case DeadlineExceeded => before <= after && budget < cost
    case _ => false
  }

  /** Deletes the sort keys of a range. `alive` stands for the server's own tests of a record and
      `budget` for the RPCs each step of the scan can make before the deadline; the ghost results
      are the scan's task, what it handed out and how much of that it repeated. */
  method DelRangeOpt(
    server: ReplicaServer, hashKey: ByteString, startSortKey: Option<ByteString>, stopSortKey: ByteString,
    deletions: Deletions, options: DelRangeOptions, alive: KeyValue -> bool, budget: nat)
    returns (r: DelRangeResult, ghost job: Job, ghost emitted: seq<KeyValue>, ghost repeats: nat)
    requires server.Valid() && |server.partitions| > 0
    requires deletions.acknowledged == []
    modifies server, deletions, options
    ensures server.Valid()
    // A scan that cannot be opened deletes nothing.
    ensures r.NotOpened? || r.NoPartition? ==> deletions.acknowledged == [] && options.nextSortKey == startSortKey
    ensures r == NotOpened(InvalidHashKey) <==> !(0 < |hashKey| <= 65535)
    ensures r.NoPartition? ==> |hashKey| == 65535
    ensures r.NotOpened? ==> r.outcome == InvalidHashKey || r.outcome == EmptyInterval || (r.outcome == OpenPanic && |hashKey| == 65534)
    ensures r == NotOpened(EmptyInterval) ==>
              !Effective(options.Requested(hashKey, startSortKey, stopSortKey), hashKey, options.sortKeyFilter).Scannable()
    ensures r == NotOpened(EmptyInterval) ==>
              var requested := options.Requested(hashKey, startSortKey, stopSortKey);
              (forall s :: Passes(options.sortKeyFilter, s) ==> !requested.Holds(Encode(hashKey, s)))
              <==> !LosesMatches(requested, hashKey, options.sortKeyFilter)
    // Otherwise the deleted keys are those enumerated so far.
    ensures !r.NotOpened? && !r.NoPartition? ==>
              && 0 < |hashKey| <= 65533
              && job == ScanJob(server, hashKey, options.Requested(hashKey, startSortKey, stopSortKey), options.sortKeyFilter, alive)
              && Delivers(job, emitted, repeats)
              && Explains(r, Enumerated(r, emitted), deletions.acknowledged, options.nextSortKey, startSortKey)
    // It fails only through its environment: a fault of the scan, a deletion that failed, or a
    // budget below the RPCs a whole scan can cost.
    ensures !r.NotOpened? && !r.NoPartition? ==> !r.KeyUnreadable? && !r.KeyPanic?
    ensures deletions.failures == old(deletions.failures) + if r.DeleteFailed? then 1 else 0
    ensures r.ScanFailed? ==> job.Valid() && ScanBlamed(r.error, old(server.faults), server.faults, budget, Cost(job, old(server.cache).lossesLeft))
    // Whatever the outcome, only wanted sort keys have been deleted; once done, all of them.
    ensures !r.NotOpened? && !r.NoPartition? ==>
              OnlyWanted(Concat(deletions.acknowledged), server.partitions[Hash(hashKey) % |server.partitions|], hashKey,
                         options.Requested(hashKey, startSortKey, stopSortKey), options.sortKeyFilter, alive)
    ensures r.Done? ==>
              AllWanted(Concat(deletions.acknowledged), server.partitions[Hash(hashKey) % |server.partitions|], hashKey,
                        options.Requested(hashKey, startSortKey, stopSortKey), options.sortKeyFilter, alive)
    ensures r.Done? ==> job.Valid() && forall kv <- job.Expected() :: kv in emitted
    // Done without repeats, as always without a gap: each wanted sort key is deleted exactly once.
    ensures r.Done? && repeats == 0 ==>
              ListsWanted(Concat(deletions.acknowledged), server.partitions[Hash(hashKey) % |server.partitions|], hashKey,
                          options.Requested(hashKey, startSortKey, stopSortKey), options.sortKeyFilter, alive)
  {
    hide ScanBlamed, Cost, Restore, Explains, Collecting, ListsWanted, OnlyWanted, AllWanted, Encode, Hash, Delivers, Job.Expected;
    hide Enumerated, OpenedFor, Effective, RequestedRange, Range.Scannable, Preserved, LosesMatches, Passes, Query, SortKeys, Concat;
    job, emitted, repeats := Job([], true, [], Query(Range([], true, [], true), NoFilter, alive)), [], 0;
    options.nextSortKey := startSortKey;
    var scannerOptions := new ScannerOptions(options.startInclusive, options.stopInclusive, options.sortKeyFilter);
    ghost var requested := options.Requested(hashKey, startSortKey, stopSortKey);
    var scan := GetScanner(hashKey, OrEmpty(startSortKey), stopSortKey, scannerOptions, |server.partitions|);
    if !scan.Opened? {
      r := NotOpened(scan);
      return;
    }
    if scan.gpid.None? {
      r := NoPartition;
      return;
    }
    var scanned := Range(scan.start, scannerOptions.startInclusive, scan.stop, scannerOptions.stopInclusive);
    r, job, emitted, repeats := DeleteOpened(server, scan.gpid.value, scanned, deletions, options, alive, budget);
    RequestedEnds(hashKey, OrEmpty(startSortKey), stopSortKey, options.startInclusive, options.stopInclusive);
    ghost var end := if stopSortKey == [] then MAX_SORT_KEY else stopSortKey;
    OpenedJob(job, hashKey, requested, scanned, options.sortKeyFilter, alive, OrEmpty(startSortKey), end);
    DeletesWanted(r, job, emitted, repeats, hashKey, requested, options.sortKeyFilter, alive, OrEmpty(startSortKey), end,
                  deletions.acknowledged, options.nextSortKey, startSortKey);
  }

  /** Scans the range, which is worth scanning, and deletes what it yields. */
  method DeleteOpened(
    server: ReplicaServer, gpid: nat, scanned: Range, deletions: Deletions, options: DelRangeOptions,
    alive: KeyValue -> bool, budget: nat)
    returns (r: DelRangeResult, ghost job: Job, ghost emitted: seq<KeyValue>, ghost repeats: nat)
    requires server.Valid() && gpid < |server.partitions| && scanned.Scannable()
    requires deletions.acknowledged == []
    modifies server, deletions, options
    ensures server.Valid() && job.Valid()
    ensures job == Job(server.partitions, server.dense, [gpid], Query(scanned, options.sortKeyFilter, alive))
    ensures !r.NotOpened? && !r.NoPartition? && !r.KeyUnreadable? && !r.KeyPanic?
    ensures Delivers(job, emitted, repeats)
    ensures Explains(r, Enumerated(r, emitted), deletions.acknowledged, options.nextSortKey, old(options.nextSortKey))
    ensures r.Done? ==> (forall kv <- job.Expected() :: kv in emitted) && (emitted == job.Expected() <==> repeats == 0)
    ensures deletions.failures == old(deletions.failures) + if r.DeleteFailed? then 1 else 0
    ensures r.ScanFailed? ==>
              ScanBlamed(r.error, old(server.faults), server.faults, budget, Cost(job, old(server.cache).lossesLeft))
  {
    hide PegasusScanner.Valid, PegasusScanner.Work, Restore, Explains, Delivers, Job.Expected, Range.Scannable, Query, Enumerated;
    hide ScanRequest.RangeEmpty, Job.Valid, Cost, ScanBlamed;
    var scanner := OpenScanner(server, gpid, scanned, options.sortKeyFilter, alive);
    ScannableQuery(scanned, options.sortKeyFilter, alive);
    r := DeleteScanned(scanner, deletions, options, budget);
    job, emitted, repeats := scanner.Task(), scanner.emitted, scanner.repeats;
    ScannerDelivers(scanner);
    DeliveredReadable(job, scanned, options.sortKeyFilter, alive, emitted, repeats);
    ghost var faults := server.faults;
    var _ := scanner.Close();
    if r.ScanFailed? {
      StillBlamed(r.error, old(server.faults), faults, server.faults, budget, Cost(job, old(server.cache).lossesLeft));
    }
  }

  lemma ScannableQuery(scanned: Range, filter: Filter, alive: KeyValue -> bool)
    requires scanned.Scannable()
    ensures !Query(scanned, filter, alive).RangeEmpty()
  {
    if Less(scanned.start, scanned.stop) {
      LessAsymmetric(scanned.start, scanned.stop);
    }
    LessIrreflexive(scanned.start);
  }

  /** The records of a scan with a filter on the sort key have keys that can be restored. */
  lemma DeliveredReadable(job: Job, scanned: Range, filter: Filter, alive: KeyValue -> bool, emitted: seq<KeyValue>, repeats: nat)
    requires Delivers(job, emitted, repeats) && |job.slice| == 1 && job.query == Query(scanned, filter, alive)
    ensures forall kv <- emitted :: Restore(kv.key).Keys?
  {
    hide Restore, Query, Job.Expected, Job.Gappy, ScanRequest.Selects;
    ExpectedOfOne(job);
    forall kv | kv in emitted
      ensures Restore(kv.key).Keys?
    {
      var i :| 0 <= i < |job.Expected()| && job.Expected()[i] == kv;
      QuerySelects(scanned, filter, alive, kv);
    }
  }

  lemma StillBlamed(error: NextError, before: seq<Fault>, after: seq<Fault>, later: seq<Fault>, budget: nat, cost: nat)
    requires ScanBlamed(error, before, after, budget, cost) && after <= later
    ensures ScanBlamed(error, before, later, budget, cost)
  {
  }

  method OpenScanner(server: ReplicaServer, gpid: nat, scanned: Range, filter: Filter, alive: KeyValue -> bool)
    returns (scanner: PegasusScanner)
    requires server.Valid() && gpid < |server.partitions|
    ensures fresh(scanner) && scanner.server == server && scanner.Valid() && !scanner.closed && scanner.emitted == []
    ensures !scanner.ErrorPending() && scanner.Task().Valid() && scanner.Work() == Cost(scanner.Task(), server.cache.lossesLeft)
    ensures scanner.Task() == Job(server.partitions, server.dense, [gpid], Query(scanned, filter, alive))
  {
    QueryWellFormed(scanned, filter, alive);
    scanner := new PegasusScanner(server, [gpid], Query(scanned, filter, alive));
  }

  lemma ScannerDelivers(scanner: PegasusScanner)
    requires scanner.Valid()
    ensures scanner.Task().Valid() && Delivers(scanner.Task(), scanner.emitted, scanner.repeats)
  {
    hide Position.Valid, Job.Valid, Job.Gappy;
  }

  lemma RequestedEnds(
    hashKey: ByteString, startSortKey: ByteString, stopSortKey: ByteString, startInclusive: bool, stopInclusive: bool)
    ensures var requested := RequestedRange(hashKey, startSortKey, stopSortKey, startInclusive, stopInclusive);
            && requested.start == Encode(hashKey, startSortKey)
            && requested.stop == Encode(hashKey, if stopSortKey == [] then MAX_SORT_KEY else stopSortKey)
  {
  }

  lemma OpenedJob(
    job: Job, hashKey: ByteString, requested: Range, scanned: Range, filter: Filter, alive: KeyValue -> bool,
    begin: ByteString, end: ByteString)
    requires job.Valid() && |job.slice| == 1 && 0 < |hashKey| <= 65533
    requires requested.start == Encode(hashKey, begin) && requested.stop == Encode(hashKey, end)
    requires scanned == Effective(requested, hashKey, filter) && scanned.Scannable()
    requires job.query == Query(scanned, filter, alive)
    ensures OpenedFor(job, hashKey, requested, filter, alive, begin, end)
  {
    hide Encode, Effective, Range.Scannable, Query, Job.Valid;
  }

  /** The deleted keys are among those enumerated. */
  lemma DeletedEnumerated(
    r: DelRangeResult, emitted: seq<KeyValue>, acknowledged: seq<seq<ByteString>>,
    noted: Option<ByteString>, startSortKey: Option<ByteString>)
    requires Explains(r, Enumerated(r, emitted), acknowledged, noted, startSortKey)
    ensures Concat(acknowledged) <= SortKeys(emitted)
    ensures r.Done? ==> Concat(acknowledged) == SortKeys(emitted)
  {
    hide SortKeyOf, Concat, Batched;
    assert Enumerated(r, emitted) <= SortKeys(emitted);
  }

  /** What a deletion has deleted: wanted sort keys only; when done, all of them; and, when done
      without repeats, each exactly once. */
  lemma DeletesWanted(
    r: DelRangeResult, job: Job, emitted: seq<KeyValue>, repeats: nat,
    hashKey: ByteString, requested: Range, filter: Filter, alive: KeyValue -> bool, begin: ByteString, end: ByteString,
    acknowledged: seq<seq<ByteString>>, noted: Option<ByteString>, startSortKey: Option<ByteString>)
    requires OpenedFor(job, hashKey, requested, filter, alive, begin, end)
    requires Delivers(job, emitted, repeats)
    requires r.Done? ==> forall kv <- job.Expected() :: kv in emitted
    requires r.Done? && repeats == 0 ==> emitted == job.Expected()
    requires Explains(r, Enumerated(r, emitted), acknowledged, noted, startSortKey)
    ensures OnlyWanted(Concat(acknowledged), job.partitions[job.slice[0]], hashKey, requested, filter, alive)
    ensures r.Done? ==> AllWanted(Concat(acknowledged), job.partitions[job.slice[0]], hashKey, requested, filter, alive)
    ensures r.Done? && repeats == 0 ==>
              ListsWanted(Concat(acknowledged), job.partitions[job.slice[0]], hashKey, requested, filter, alive)
  {
    hide AllWanted, ListsWanted, Wanted, Encode, Effective, Range.Scannable, Query, Job.Expected, Job.Gappy;
    hide SortKeys, Concat, Explains, Enumerated;
    DeletedEnumerated(r, emitted, acknowledged, noted, startSortKey);
    ExpectedOnlyWanted(job, hashKey, requested, filter, alive, begin, end, emitted);
    if r.Done? {
      ExpectedAllWanted(job, hashKey, requested, filter, alive, begin, end, emitted);
      EnumeratesWanted(job, hashKey, requested, filter, alive, begin, end);
    }
  }

  method DeleteScanned(scanner: PegasusScanner, deletions: Deletions, options: DelRangeOptions, budget: nat)
    returns (r: DelRangeResult)
    requires scanner.Valid() && !scanner.closed && scanner.emitted == [] && !scanner.ErrorPending()
    requires deletions.acknowledged == [] && !scanner.query.RangeEmpty()
    modifies scanner, scanner.server, deletions, options
    ensures scanner.Valid() && !scanner.closed && !r.NotOpened? && !r.NoPartition?
    ensures Explains(r, Enumerated(r, scanner.emitted), deletions.acknowledged, options.nextSortKey, old(options.nextSortKey))
    ensures r.Done? ==>
              && (forall kv <- scanner.Task().Expected() :: kv in scanner.emitted)
              && (scanner.emitted == scanner.Task().Expected() <==> scanner.repeats == 0)
    ensures deletions.failures == old(deletions.failures) + if r.DeleteFailed? then 1 else 0
    ensures r.ScanFailed? ==> ScanBlamed(r.error, old(scanner.server.faults), scanner.server.faults, budget, old(scanner.Work()))
    ensures r.KeyUnreadable? || r.KeyPanic? ==> exists kv <- scanner.emitted :: !Restore(kv.key).Keys?
  {
    hide PegasusScanner.Valid, PegasusScanner.Work, PegasusScanner.Here, Position.Pending, Position.AtEnd, Job.Expected;
    hide Restore, Explains, Collecting, SortKeys, Enumerated, ScanRequest.RangeEmpty;
    ghost var start := options.nextSortKey;
    var sortKeys: seq<ByteString> := [];
    var index: nat := 0;
    NothingCollected(scanner.emitted, start);
    while true
      invariant scanner.Valid() && !scanner.closed && !scanner.ErrorPending() && scanner.Work() <= old(scanner.Work())
      invariant scanner.server.faults == old(scanner.server.faults) && deletions.failures == old(deletions.failures)
      invariant |sortKeys| < BATCH_SIZE
      invariant Collecting(SortKeys(scanner.emitted), deletions.acknowledged, sortKeys, index, options.nextSortKey, start)
      decreases scanner.Work(), |scanner.Here().Pending()|
    {
      ghost var emitted := scanner.emitted;
      var next := scanner.Next(budget);
      if next.Completed? {
        break;
      }
      if !next.Record? || !next.keys.Keys? {
        r := if next.Failed? then ScanFailed(next.error) else if next.keys.Malformed? then KeyUnreadable else KeyPanic;
        Handed(r, emitted, scanner.emitted);
        assert next.Record? ==> scanner.emitted[|emitted|] in scanner.emitted;
        Interrupted(r, SortKeys(emitted), deletions.acknowledged, sortKeys, index, options.nextSortKey, start);
        return;
      }
      Handed(Done, emitted, scanner.emitted);
      var failed;
      failed, sortKeys, index := Collect(SortKeys(emitted), next.keys.sortKey, sortKeys, index, deletions, options, start);
      if failed {
        r := DeleteFailed(sortKeys[0], index);
        Handed(r, scanner.emitted, scanner.emitted);
        return;
      }
    }
    Handed(Done, scanner.emitted, scanner.emitted);
    r := DeleteLast(SortKeys(scanner.emitted), sortKeys, index, deletions, options, start);
    Handed(r, scanner.emitted, scanner.emitted);
  }

  /** One key more; a full batch is deleted at once. */
  method Collect(
    ghost keys: seq<ByteString>, s: ByteString, sortKeys: seq<ByteString>, index: nat,
    deletions: Deletions, options: DelRangeOptions, ghost start: Option<ByteString>)
    returns (failed: bool, sortKeys': seq<ByteString>, index': nat)
    requires |sortKeys| < BATCH_SIZE
    requires Collecting(keys, deletions.acknowledged, sortKeys, index, options.nextSortKey, start)
    modifies deletions, options
    ensures sortKeys' != [] || !failed
    ensures deletions.failures == old(deletions.failures) + if failed then 1 else 0
    ensures failed ==> Explains(DeleteFailed(sortKeys'[0], index'), keys + [s], deletions.acknowledged, options.nextSortKey, start)
    ensures !failed ==>
              && |sortKeys'| < BATCH_SIZE
              && Collecting(keys + [s], deletions.acknowledged, sortKeys', index', options.nextSortKey, start)
  {
    hide Explains, Collecting;
    failed, sortKeys', index' := false, sortKeys + [s], index;
    if |sortKeys'| < BATCH_SIZE {
      Collected(keys, deletions.acknowledged, sortKeys, index, options.nextSortKey, start, s);
    } else {
      FullBatchDeleted(keys, deletions.acknowledged, sortKeys, index, options.nextSortKey, start, s);
      FullBatchFailed(keys, deletions.acknowledged, sortKeys, index, options.nextSortKey, start, s);
      options.nextSortKey := Some(sortKeys'[0]);
      var ok := deletions.MultiDel(sortKeys');
      if !ok {
        failed := true;
        return;
      }
      sortKeys', index' := [], index + BATCH_SIZE;
    }
  }

  /** The keys left over at the end of the scan. */
  method DeleteLast(
    ghost keys: seq<ByteString>, sortKeys: seq<ByteString>, index: nat,
    deletions: Deletions, options: DelRangeOptions, ghost start: Option<ByteString>)
    returns (r: DelRangeResult)
    requires Collecting(keys, deletions.acknowledged, sortKeys, index, options.nextSortKey, start)
    modifies deletions, options
    ensures r.Done? || r.DeleteFailed?
    ensures deletions.failures == old(deletions.failures) + if r.DeleteFailed? then 1 else 0
    ensures Explains(r, keys, deletions.acknowledged, options.nextSortKey, start)
  {
    hide Explains, Collecting;
    r := Done;
    if |sortKeys| > 0 {
      LastBatch(keys, deletions.acknowledged, sortKeys, index, options.nextSortKey, start);
      var ok := deletions.MultiDel(sortKeys);
      if !ok {
        return DeleteFailed(sortKeys[0], index);
      }
      options.nextSortKey := None;
    } else {
      Interrupted(r, keys, deletions.acknowledged, sortKeys, index, options.nextSortKey, start);
    }
  }

  /** What one more record adds to the keys enumerated. */
  lemma Handed(r: DelRangeResult, before: seq<KeyValue>, after: seq<KeyValue>)
    requires before == after || (|after| == |before| + 1 && before <= after)
    ensures (before != after <==> r.KeyUnreadable? || r.KeyPanic?) ==> Enumerated(r, after) == SortKeys(before)
    ensures before != after ==> SortKeys(after) == SortKeys(before) + [SortKeyOf(after[|before|])]
  {
    if before != after {
      assert after[..|after| - 1] == before;
    }
  }

  lemma NothingCollected(emitted: seq<KeyValue>, start: Option<ByteString>)
    requires emitted == []
    ensures Collecting(SortKeys(emitted), [], [], 0, start, start)
  {
  }

  /** A deletion of exactly one full batch succeeds and leaves its first key noted for a retry. */
  lemma StaleRetryKey()
    ensures var keys: seq<ByteString> := seq(1000, i requires 0 <= i < 1000 => [i / 256, i % 256]);
            && Explains(Done, keys, [keys], Some(keys[0]), None)
            && !Explains(Done, keys, [keys], None, None)
  {
    var keys: seq<ByteString> := seq(1000, i requires 0 <= i < 1000 => [i / 256, i % 256]);
    assert [keys][..0] == [];
    assert Concat([keys]) == [] + keys == keys;
  }
}
