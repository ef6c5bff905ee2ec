/** Where a scan stands, as a value, and what every step of it keeps. */
module ScanProgress {

  import opened Bytes
  import opened ScanServer

  const BATCH_SCANNING := 0
  const BATCH_SCAN_FINISHED := -1
  const BATCH_EMPTY := -2
  const BATCH_RPC_ERROR := -3
  const BATCH_UNKNOWN_ERROR := -4

  /** A record the request does not select, below the stop key, between a selected record and
      some further record. */
  ghost predicate GapAt(s: seq<KeyValue>, q: ScanRequest, i: int, j: int)
  {
    && 0 <= i < j && j + 1 < |s|
    && q.Selects(s[i]) && !q.Selects(s[j]) && Less(s[j].key, q.stop)
  }

  ghost predicate Gap(s: seq<KeyValue>, q: ScanRequest)
  {
    exists i, j :: GapAt(s, q, i, j)
  }

  /** What a scanner is to do: scan the partitions of `slice`, from the last to the first. */
  datatype Job = Job(partitions: seq<seq<KeyValue>>, dense: bool, slice: seq<nat>, query: ScanRequest)
  {
    ghost predicate Valid()
    {
      && query.WellFormed()
      && (forall p <- partitions :: Sorted(p))
      && (forall i :: 0 <= i < |slice| ==> slice[i] < |partitions|)
    }

    /** The matching records of one partition. */
    ghost function Matching(gpid: nat): seq<KeyValue>
      requires gpid < |partitions|
    {
      Select(partitions[gpid], query)
    }

    /** The matching records of the partitions from the last of the slice down to index `k`. */
    ghost function Head(k: nat): seq<KeyValue>
      requires Valid() && k <= |slice|
      decreases |slice| - k
    {
      if k == |slice| then [] else Head(k + 1) + Matching(slice[k])
    }

    /** What the scan is to produce: partitions in descending slice order, keys ascending. */
    ghost function Expected(): seq<KeyValue>
      requires Valid()
    {
      Head(0)
    }

    lemma {:induction false} HeadIsPrefix(k: nat)
      requires Valid() && k <= |slice|
      ensures Head(k) <= Expected()
      decreases k
    {
      if k > 0 {
        HeadIsPrefix(k - 1);
      }
    }

    /** Whether some partition of the slice has a gap. */
    ghost predicate Gappy()
      requires Valid()
    {
      exists k :: 0 <= k < |slice| && Gap(partitions[slice[k]], query)
    }

    /** RPCs that the slice below index `k` can cost. */
    ghost function FutureWork(k: nat): nat
      requires Valid() && k <= |slice|
    {
      if k == 0 then 0 else |partitions[slice[k - 1]]| + 1 + FutureWork(k - 1)
    }
  }

  /** Both requests select the same of these records. */
  ghost predicate Agree(s: seq<KeyValue>, q: ScanRequest, r: ScanRequest)
  {
    forall i :: 0 <= i < |s| ==> (q.Selects(s[i]) <==> r.Selects(s[i]))
  }

  lemma {:induction false} AgreeSelects(s: seq<KeyValue>, q: ScanRequest, r: ScanRequest)
    requires Agree(s, q, r)
    ensures Select(s, q) == Select(s, r)
  {
    if s != [] {
      assert forall i :: 0 <= i < |s[1..]| ==> s[1..][i] == s[i + 1];
      AgreeSelects(s[1..], q, r);
    }
  }

  lemma AgreeSuffix(t: seq<KeyValue>, s: seq<KeyValue>, q: ScanRequest, r: ScanRequest)
    requires Agree(s, q, r) && Suffix(t, s)
    ensures Agree(t, q, r)
  {
    assert forall i :: 0 <= i < |t| ==> t[i] == s[|s| - |t| + i];
  }

  /** A record selected from a sequence has an index there. */
  lemma {:induction false} SelectedAt(s: seq<KeyValue>, q: ScanRequest, kv: KeyValue) returns (i: nat)
    requires kv in Select(s, q)
    ensures i < |s| && s[i] == kv && q.Selects(kv)
  {
    if q.Selects(s[0]) && s[0] == kv {
      i := 0;
    } else {
      i := SelectedAt(s[1..], q, kv);
      i := i + 1;
    }
  }

  lemma {:induction false} NoneSelected(s: seq<KeyValue>, q: ScanRequest)
    requires Select(s, q) == []
    ensures forall i :: 0 <= i < |s| ==> !q.Selects(s[i])
  {
    if s != [] {
      NoneSelected(s[1..], q);
      assert forall i :: 0 < i < |s| ==> s[i] == s[1..][i - 1];
    }
  }

  /** An empty batch that is not the last, behind a selected record, shows a gap. */
  lemma EmptyBatchGap(
    raw: seq<KeyValue>, q: ScanRequest, source: seq<KeyValue>, request: ScanRequest, dense: bool, left: seq<KeyValue>, i: nat)
    requires Sorted(raw) && Suffix(source, raw) && Agree(source, request, q) && request.stop == q.stop
    requires PartialBatch(source, request, dense, [], left)
    requires i < |raw| - |source| && q.Selects(raw[i])
    ensures Gap(raw, q)
  {
    var j, m := |raw| - |source|, |source| - |left|;
    assert source[0] == raw[j];
    assert source[..m][0] == source[0];
    NoneSelected(source[..m], request);
    if m > 1 {
      assert source[m - 1] == raw[j + m - 1];
      LessTransitive(raw[j].key, raw[j + m - 1].key, q.stop);
    }
    assert GapAt(raw, q, i, j);
  }

  ghost function Longest(partitions: seq<seq<KeyValue>>): nat
  {
    if partitions == [] then 0
    else
      var n := Longest(partitions[1..]);
      if n < |partitions[0]| then |partitions[0]| else n
  }

  lemma {:induction false} LongestBounds(partitions: seq<seq<KeyValue>>, i: nat)
    requires i < |partitions|
    ensures |partitions[i]| <= Longest(partitions)
  {
    if i > 0 {
      LongestBounds(partitions[1..], i - 1);
    }
  }

  ghost predicate AllIn(s: seq<KeyValue>, t: seq<KeyValue>)
  {
    forall kv <- s :: kv in t
  }

  /** What is known of the records handed out so far: repeated or not, all are expected ones. */
  ghost predicate Delivers(job: Job, emitted: seq<KeyValue>, repeats: nat)
  {
    && job.Valid()
    && AllIn(emitted, job.Expected())
    && (repeats > 0 ==> !job.dense && job.Gappy())
    && (repeats == 0 ==> emitted <= job.Expected())
  }

  /** RPCs that `losses` losses of a context can cost. */
  ghost function LossWork(losses: nat, longest: nat): nat
  {
    if losses == 0 then 0 else longest + 2 + LossWork(losses - 1, longest)
  }

  lemma {:induction false} LossWorkMonotone(fewer: nat, losses: nat, longest: nat)
    requires fewer <= losses
    ensures LossWork(fewer, longest) <= LossWork(losses, longest)
    ensures fewer < losses ==> LossWork(fewer, longest) + longest + 2 <= LossWork(losses, longest)
  {
    if fewer < losses {
      LossWorkMonotone(fewer, losses - 1, longest);
    }
  }

  /** RPCs that a whole scan can cost. */
  ghost function Cost(job: Job, losses: nat): nat
    requires job.Valid()
  {
    job.FutureWork(|job.slice|) + LossWork(losses, Longest(job.partitions))
  }

  /** The scanner's fields, with the history that explains them. */
  datatype Position = Position(
    gpidIndex: int,
    curGpid: nat,
    entries: seq<KeyValue>,
    index: int,
    status: int,
    /** Every record handed out so far, in order. */
    emitted: seq<KeyValue>,
    /** The current partition's records handed out since it was (re)started, and those not
        yet received. */
    delivered: seq<KeyValue>,
    rest: seq<KeyValue>,
    /** Records that restarts with an empty buffer make the server send again. */
    repeats: nat)
  {
    /** Received entries not yet handed out. */
    ghost function Pending(): seq<KeyValue>
    {
      if 0 <= index + 1 < |entries| then entries[index + 1..] else []
    }

    /** The part of the expected sequence that lies behind the scanner. */
    ghost function Passed(job: Job): seq<KeyValue>
      requires job.Valid() && 0 <= gpidIndex < |job.slice|
    {
      job.Head(gpidIndex + 1) + delivered
    }

    ghost predicate Unstarted()
    {
      && status == BATCH_SCAN_FINISHED && entries == []
      && emitted == [] && delivered == [] && rest == [] && repeats == 0
    }

    /** A non-empty buffer ends in the last record received, which lies below the stop key; an
        empty one after records of the partition were delivered is due to a gap. */
    ghost predicate Resumable(job: Job)
    {
      if entries == [] then
        delivered == [] || (!job.dense && curGpid < |job.partitions| && Gap(job.partitions[curGpid], job.query))
      else
        var got := delivered + Pending();
        var last := entries[|entries| - 1];
        got != [] && got[|got| - 1] == last && Less(last.key, job.query.stop)
    }

    /** A live context has exactly the unreceived records ahead of it. */
    ghost predicate Ahead(job: Job, c: ScanContext)
    {
      && Select(c.rest, c.request) == rest && c.request.stop == job.query.stop
      && Agree(c.rest, c.request, job.query)
    }

    ghost predicate InPartition(job: Job, cache: Cache)
      requires job.Valid() && 0 <= gpidIndex < |job.slice|
    {
      && curGpid == job.slice[gpidIndex]
      && delivered + Pending() + rest == job.Matching(curGpid)
      && |emitted| == |Passed(job)| + repeats
      && (repeats == 0 ==> emitted == Passed(job))
      && (forall kv <- Passed(job) :: kv in emitted)
      && AllIn(emitted, job.Head(gpidIndex))
      && (if status == BATCH_SCAN_FINISHED
          then rest == [] && !job.query.RangeEmpty()
          else Resumable(job))
      && (job.query.RangeEmpty() ==> Reserved(status))
      && (Reserved(status) || status < cache.nextId)
      && (cache.Holds(curGpid, status) ==> Ahead(job, cache.contexts[status]))
    }

    /** What every step of a scan keeps. */
    ghost predicate Valid(job: Job, cache: Cache)
    {
      && job.Valid() && cache.Valid(job.partitions)
      && 0 <= gpidIndex <= |job.slice| && -1 <= index
      && (repeats > 0 ==> !job.dense && job.Gappy())
      && (if gpidIndex == |job.slice| then Unstarted() else InPartition(job, cache))
    }

    /** RPCs the current partition can still cost while no context is lost. */
    ghost function CurrentWork(job: Job, cache: Cache): nat
    {
      if status == BATCH_SCAN_FINISHED || curGpid >= |job.partitions| then 0
      else if cache.Holds(curGpid, status) then |cache.contexts[status].rest|
      else |job.partitions[curGpid]| + if status == BATCH_EMPTY then 1 else 2
    }

    /** A bound on the RPCs that handing out one more record can cost. */
    ghost function Work(job: Job, cache: Cache): nat
    {
      CurrentWork(job, cache)
      + (if job.Valid() && 0 <= gpidIndex <= |job.slice| then job.FutureWork(gpidIndex) else 0)
      + LossWork(cache.lossesLeft, Longest(job.partitions))
    }

    predicate AtEnd()
    {
      gpidIndex <= 0 && status == BATCH_SCAN_FINISHED && index >= |entries| - 1
    }

    /** The next partition, with nothing received from it. */
    ghost function NextPartition(job: Job): Position
      requires job.Valid() && 0 < gpidIndex <= |job.slice|
    {
      var gpid := job.slice[gpidIndex - 1];
      Position(gpidIndex - 1, gpid, [], -1, BATCH_EMPTY, emitted, [], job.Matching(gpid), repeats)
    }

    /** One more buffered record handed out. */
    ghost function HandOut(): Position
      requires 0 <= index + 1 < |entries|
    {
      var kv := entries[index + 1];
      this.(index := index + 1, emitted := emitted + [kv], delivered := delivered + [kv])
    }

    /** The request for a new context: behind the buffer's last record, or from the start. */
    function ResumeRequest(query: ScanRequest): ScanRequest
    {
      if |entries| == 0 then query else query.After(entries[|entries| - 1].key)
    }

    /** What the server reads on such a request. */
    ghost function Source(job: Job): seq<KeyValue>
      requires curGpid < |job.partitions|
    {
      Seek(job.partitions[curGpid], ResumeRequest(job.query))
    }

    /** A reply to a request for a new context; without a resume key the partition starts
        over. */
    ghost function Opened(r: ScanReply, ahead: seq<KeyValue>): Position
    {
      var p := this.(entries := r.kvs, index := -1, status := r.contextId, rest := ahead);
      if entries == [] then p.(delivered := [], repeats := repeats + |delivered|) else p
    }

    ghost function Continued(r: ScanReply, ahead: seq<KeyValue>): Position
    {
      this.(entries := r.kvs, index := -1, status := r.contextId, rest := ahead)
    }
  }

  lemma ValidBounds(job: Job, cache: Cache, p: Position)
    requires p.Valid(job, cache)
    ensures job.Valid() && -1 <= p.index && 0 <= p.gpidIndex <= |job.slice|
    ensures p.status != BATCH_SCAN_FINISHED ==>
              p.gpidIndex < |job.slice| && p.curGpid < |job.partitions| && 0 < p.Work(job, cache)
  {
  }

  lemma ValidDelivers(job: Job, cache: Cache, p: Position)
    requires p.Valid(job, cache)
    ensures Delivers(job, p.emitted, p.repeats)
  {
    if p.gpidIndex < |job.slice| {
      job.HeadIsPrefix(p.gpidIndex);
      assert p.Passed(job) + (p.Pending() + p.rest) == job.Head(p.gpidIndex);
    }
  }

  /** The scan cannot end before everything expected has been handed out, and it has handed
      out exactly the expected sequence if and only if no restart repeated a record. */
  lemma EndOfScan(job: Job, cache: Cache, p: Position)
    requires p.Valid(job, cache) && p.AtEnd()
    ensures |p.emitted| == |job.Expected()| + p.repeats
    ensures p.emitted == job.Expected() <==> p.repeats == 0
    ensures p.emitted == job.Expected() || (!job.dense && job.Gappy())
    ensures forall kv :: kv in p.emitted <==> kv in job.Expected()
    ensures job.slice != [] ==> !job.query.RangeEmpty()
  {
    if p.gpidIndex < |job.slice| {
      assert p.delivered + p.Pending() + p.rest == p.delivered;
      assert p.Passed(job) == job.Head(0);
    }
  }

  /** With an empty range nothing is ever handed out. */
  lemma EmptyRangeHandsOutNothing(job: Job, cache: Cache, p: Position)
    requires p.Valid(job, cache) && job.query.RangeEmpty()
    ensures p.Pending() == []
    ensures p.gpidIndex < |job.slice| ==> p.entries == [] && p.delivered == [] && p.rest == []
  {
    if p.gpidIndex < |job.slice| {
      SelectEmptyRange(job.partitions[p.curGpid], job.query);
      assert p.delivered + p.Pending() + p.rest == [];
      assert p.delivered == [] && p.Pending() == [] && p.rest == [];
    }
  }

  lemma AdvanceKeeps(job: Job, cache: Cache, p: Position)
    requires p.Valid(job, cache) && p.index + 1 >= |p.entries|
    ensures var p' := p.(index := p.index + 1);
            p'.Valid(job, cache) && p'.Work(job, cache) == p.Work(job, cache)
  {
    var p' := p.(index := p.index + 1);
    assert p'.Pending() == p.Pending() == [];
  }

  /** A buffered record is one of the partition's matching ones. */
  lemma HandOutExpected(job: Job, cache: Cache, p: Position)
    requires p.Valid(job, cache) && p.index + 1 < |p.entries|
    ensures AllIn(p.HandOut().emitted, job.Head(p.gpidIndex))
  {
    hide Select, Cache.Valid, LossWork, Longest, Less, ScanRequest.RangeEmpty, Job.Gappy, Position.Resumable;
    var kv := p.entries[p.index + 1];
    assert kv == p.Pending()[0];
    assert (p.delivered + p.Pending() + p.rest)[|p.delivered|] == kv;
    assert job.Head(p.gpidIndex) == job.Head(p.gpidIndex + 1) + job.Matching(p.curGpid);
  }

  lemma HandOutKeeps(job: Job, cache: Cache, p: Position)
    requires p.Valid(job, cache) && p.index + 1 < |p.entries|
    ensures p.HandOut().Valid(job, cache)
    ensures p.HandOut().Work(job, cache) == p.Work(job, cache)
    ensures |p.HandOut().Pending()| < |p.Pending()|
  {
    hide Select, Cache.Valid, Job.Head, LossWork, Longest, Less, ScanRequest.RangeEmpty, AllIn;
    HandOutExpected(job, cache, p);
    var kv, p' := p.entries[p.index + 1], p.HandOut();
    assert p.Pending() == [kv] + p'.Pending();
    assert p'.delivered + p'.Pending() == p.delivered + p.Pending();
    assert p'.Passed(job) == p.Passed(job) + [kv];
  }

  lemma ReservedAbsent(cache: Cache, partitions: seq<seq<KeyValue>>, id: int)
    requires cache.Valid(partitions) && Reserved(id)
    ensures id !in cache.contexts
  {
  }

  /** Leaving a finished partition, everything of it lies behind the scanner. */
  lemma NextPartitionPassed(job: Job, cache: Cache, p: Position)
    requires p.Valid(job, cache) && p.gpidIndex > 0
    requires p.status == BATCH_SCAN_FINISHED && p.index + 1 >= |p.entries|
    ensures var p' := p.NextPartition(job);
            && |p'.emitted| == |p'.Passed(job)| + p'.repeats
            && (p'.repeats == 0 ==> p'.emitted == p'.Passed(job))
            && (forall kv <- p'.Passed(job) :: kv in p'.emitted)
            && AllIn(p'.emitted, job.Head(p'.gpidIndex))
  {
    hide Select, Cache.Valid, Cache.Holds, Less, ScanRequest.RangeEmpty, Job.Gappy;
    var p' := p.NextPartition(job);
    assert job.Head(p'.gpidIndex) == job.Head(p.gpidIndex) + job.Matching(p'.curGpid);
    if p.gpidIndex < |job.slice| {
      assert p.delivered + p.Pending() + p.rest == p.delivered;
      assert p'.Passed(job) == p.Passed(job);
    } else {
      assert p'.Passed(job) == [];
    }
  }

  lemma NextPartitionKeeps(job: Job, cache: Cache, p: Position)
    requires p.Valid(job, cache) && p.gpidIndex > 0
    requires p.status == BATCH_SCAN_FINISHED && p.index + 1 >= |p.entries|
    ensures p.NextPartition(job).Valid(job, cache)
    ensures p.NextPartition(job).Work(job, cache) == p.Work(job, cache)
  {
    hide Select, Cache.Valid, LossWork, Longest, Less, ScanRequest.RangeEmpty, Job.Gappy, Job.Head, Position.Passed;
    var p' := p.NextPartition(job);
    ReservedAbsent(cache, job.partitions, BATCH_EMPTY);
    NextPartitionPassed(job, cache, p);
    assert p'.delivered + p'.Pending() + p'.rest == job.Matching(p'.curGpid);
  }

  /** A status that names no context, set while the server's cache moved on. */
  lemma StatusKeeps(job: Job, cache: Cache, p: Position, cache': Cache, status: int)
    requires p.Valid(job, cache) && p.status != BATCH_SCAN_FINISHED && p.gpidIndex < |job.slice|
    requires cache.Precedes(cache') && cache'.Valid(job.partitions)
    requires Reserved(status) && status != BATCH_SCAN_FINISHED
    ensures p.(status := status).Valid(job, cache')
    ensures Delivers(job, p.emitted, p.repeats)
  {
    var p' := p.(status := status);
    assert p'.Pending() == p.Pending();
    assert p'.Passed(job) == p.Passed(job);
    ValidDelivers(job, cache, p);
  }

  /** A lost context costs one RPC and is paid for by the loss or by the missing context. */
  lemma MissingContextWork(job: Job, cache: Cache, p: Position, cache': Cache)
    requires p.Valid(job, cache) && p.gpidIndex < |job.slice|
    requires p.status != BATCH_SCAN_FINISHED && p.status != BATCH_EMPTY
    requires cache.Precedes(cache') && cache'.Valid(job.partitions)
    requires !cache.Holds(p.curGpid, p.status) || cache'.lossesLeft < cache.lossesLeft
    ensures p.(status := BATCH_EMPTY).Work(job, cache') < p.Work(job, cache)
  {
    LossWorkMonotone(cache'.lossesLeft, cache.lossesLeft, Longest(job.partitions));
    LongestBounds(job.partitions, p.curGpid);
  }

  lemma ResumeWellFormed(job: Job, cache: Cache, p: Position)
    requires p.Valid(job, cache)
    ensures p.ResumeRequest(job.query).WellFormed()
  {
    hide Position.InPartition, Cache.Valid, Job.Gappy;
  }

  /** The request for a new context asks for exactly the unreceived records, or, with an
      empty buffer, for the whole partition again; and for an empty range only if the scan
      itself has one. */
  lemma ResumePoint(job: Job, cache: Cache, p: Position)
    requires p.Valid(job, cache) && p.gpidIndex < |job.slice|
    requires p.status != BATCH_SCAN_FINISHED && p.index + 1 >= |p.entries|
    ensures Select(job.partitions[p.curGpid], p.ResumeRequest(job.query))
         == if p.entries == [] then job.Matching(p.curGpid) else p.rest
    ensures p.ResumeRequest(job.query).RangeEmpty() <==> job.query.RangeEmpty()
  {
    var raw, q := job.partitions[p.curGpid], job.query;
    assert p.delivered + p.Pending() == p.delivered;
    if q.RangeEmpty() {
      EmptyRangeHandsOutNothing(job, cache, p);
    } else if p.entries != [] {
      var last := p.delivered[|p.delivered| - 1];
      ResumeYieldsRest(raw, q, p.delivered, p.rest);
      assert last == Select(raw, q)[|p.delivered| - 1];
      SelectMembers(raw, q);
      assert q.Selects(last) && q.accepts(last);
      assert AtMost(q.floor, last.key);
      if Less(last.key, q.floor) {
        LessAsymmetric(last.key, q.floor);
      }
      LessAsymmetric(last.key, q.stop);
    }
  }

  /** Behind a selected record, a request and its continuation agree. */
  lemma AfterAgrees(q: ScanRequest, last: KeyValue, kv: KeyValue)
    requires q.Selects(last) && Less(last.key, kv.key)
    ensures q.After(last.key).Selects(kv) <==> q.Selects(kv)
  {
    AtMostTransitive(q.start, last.key, kv.key);
  }

  /** The source of a new context: a suffix of the partition, on which the request agrees with
      the scan's own; after a resume the last record received lies before it. */
  lemma SourceOf(job: Job, cache: Cache, p: Position)
    requires p.Valid(job, cache) && p.gpidIndex < |job.slice| && !job.query.RangeEmpty()
    requires p.status != BATCH_SCAN_FINISHED && p.index + 1 >= |p.entries|
    ensures p.ResumeRequest(job.query).WellFormed()
    ensures var raw, source := job.partitions[p.curGpid], p.Source(job);
            && Sorted(source) && Suffix(source, raw)
            && Select(source, p.ResumeRequest(job.query)) == Select(raw, p.ResumeRequest(job.query))
            && Agree(source, p.ResumeRequest(job.query), job.query)
            && (p.entries != [] ==> exists i: nat :: i < |raw| - |source| && job.query.Selects(raw[i]))
  {
    hide Position.Passed, Job.Head, Job.Gappy, Cache.Valid, Select, ScanRequest.RangeEmpty, Gap;
    var raw, q, source := job.partitions[p.curGpid], p.ResumeRequest(job.query), p.Source(job);
    SeekSelects(raw, q);
    SeekSorted(raw, q);
    if p.entries != [] {
      var last := p.entries[|p.entries| - 1];
      assert p.delivered + p.Pending() == p.delivered;
      assert last == (p.delivered + p.Pending() + p.rest)[|p.delivered| - 1];
      assert last in Select(raw, job.query);
      var i := SelectedAt(raw, job.query, last);
      ResumedSource(raw, job.query, i, source);
    }
  }

  /** A request that continues behind a selected record starts reading behind it. */
  lemma ResumedLow(q: ScanRequest, last: KeyValue, kv: KeyValue)
    requires q.Selects(last) && q.WellFormed()
    ensures q.After(last.key).PassesOver(kv) <==> !Less(last.key, kv.key)
  {
    assert q.accepts(last) && AtMost(q.floor, last.key);
    if Less(last.key, q.floor) {
      LessAsymmetric(last.key, q.floor);
    }
    LessTotal(last.key, kv.key);
    LessIrreflexive(kv.key);
    if Less(last.key, kv.key) {
      LessAsymmetric(last.key, kv.key);
    }
  }

  lemma ResumedSource(raw: seq<KeyValue>, q: ScanRequest, i: nat, source: seq<KeyValue>)
    requires Sorted(raw) && i < |raw| && q.Selects(raw[i]) && q.WellFormed()
    requires source == Seek(raw, q.After(raw[i].key))
    ensures i < |raw| - |source| && Agree(source, q.After(raw[i].key), q)
  {
    hide Seek, Select, Less, ScanRequest.Selects, ScanRequest.PassesOver;
    var last, r := raw[i], q.After(raw[i].key);
    SeekSelects(raw, r);
    var n := |raw| - |source|;
    if source != [] {
      assert source[0] == raw[n];
      ResumedLow(q, last, raw[n]);
      LessAsymmetric(last.key, raw[n].key);
    }
    forall k | 0 <= k < |source|
      ensures r.Selects(source[k]) <==> q.Selects(source[k])
    {
      assert source[k] == raw[n + k];
      AfterAgrees(q, last, source[k]);
    }
  }

  /** The records of a batch, the buffer they fill and the rest ahead of it add up. */
  lemma BatchFits(
    job: Job, p': Position, source: seq<KeyValue>, q: ScanRequest, r: ScanReply, left: seq<KeyValue>)
    requires Sorted(source) && q.stop == job.query.stop
    requires p'.entries == r.kvs && p'.index == -1 && p'.rest == Select(left, q)
    requires if r.contextId == COMPLETED then Batch(source, q, r.kvs, left)
             else PartialBatch(source, q, job.dense, r.kvs, left)
    ensures Batch(source, q, r.kvs, left)
    ensures p'.delivered + p'.Pending() + p'.rest == p'.delivered + Select(source, q)
    ensures r.contextId != COMPLETED && r.kvs != [] ==> p'.Resumable(job)
  {
    BatchConserves(source, q, r.kvs, left);
    assert p'.Pending() == r.kvs;
    assert p'.delivered + p'.Pending() + p'.rest == p'.delivered + (r.kvs + Select(left, q));
    if r.contextId != COMPLETED && r.kvs != [] {
      PartialBatchBelowStop(source, q, job.dense, r.kvs, left);
      assert r.kvs[|r.kvs| - 1] in r.kvs;
    }
  }

  lemma BatchSuffix(source: seq<KeyValue>, q: ScanRequest, kvs: seq<KeyValue>, left: seq<KeyValue>)
    requires Batch(source, q, kvs, left)
    ensures Suffix(left, source)
  {
  }

  lemma GapInSlice(job: Job, k: nat)
    requires job.Valid() && k < |job.slice| && Gap(job.partitions[job.slice[k]], job.query)
    ensures job.Gappy()
  {
    hide Gap;
  }

  /** What lies behind the scanner after a reopened context: as before, or, with an empty
      buffer, nothing of the partition any more. */
  lemma OpenedPassed(job: Job, cache: Cache, p: Position, r: ScanReply, ahead: seq<KeyValue>)
    requires p.Valid(job, cache) && p.gpidIndex < |job.slice| && p.status == BATCH_EMPTY
    ensures var p' := p.Opened(r, ahead);
            && (p'.repeats > 0 ==> !job.dense && job.Gappy())
            && |p'.emitted| == |p'.Passed(job)| + p'.repeats
            && (p'.repeats == 0 ==> p'.emitted == p'.Passed(job))
            && (forall kv <- p'.Passed(job) :: kv in p'.emitted)
  {
    hide Select, Job.Head, Cache.Valid, Cache.Holds, ScanRequest.RangeEmpty, Gap, Job.Gappy, AllIn;
    var p' := p.Opened(r, ahead);
    if p.entries != [] {
      assert p'.Passed(job) == p.Passed(job);
    } else {
      var head := job.Head(p.gpidIndex + 1);
      assert p'.Passed(job) == head && p.Passed(job) == head + p.delivered;
      assert forall kv <- head :: kv in p.Passed(job);
      if p.delivered == [] {
        assert p.Passed(job) == head;
      } else {
        GapInSlice(job, p.gpidIndex);
      }
    }
  }

  /** After the reply either there is a buffer to resume from, nothing was delivered, or there
      is a gap. */
  lemma OpenedResumable(job: Job, cache: Cache, p: Position, cache': Cache, r: ScanReply, left: seq<KeyValue>)
    requires p.Valid(job, cache) && p.gpidIndex < |job.slice|
    requires p.status == BATCH_EMPTY && p.index + 1 >= |p.entries|
    requires !job.query.RangeEmpty() && r.contextId != COMPLETED
    requires cache'.Answers(p.curGpid, p.ResumeRequest(job.query), p.Source(job), job.dense, r, left, cache.nextId)
    ensures p.Opened(r, Select(left, p.ResumeRequest(job.query))).Resumable(job)
  {
    hide Less, Select, Batch, PartialBatch, ScanRequest.RangeEmpty, Sorted, Job.Head, Job.Gappy, Position.Passed, Gap, Agree;
    var raw, q := job.partitions[p.curGpid], p.ResumeRequest(job.query);
    var p' := p.Opened(r, Select(left, q));
    SourceOf(job, cache, p);
    if r.kvs != [] {
      BatchFits(job, p', p.Source(job), q, r, left);
    } else if p.entries != [] {
      NonDenseEmptyBatch(p.Source(job), q, job.dense, left);
      var i: nat :| i < |raw| - |p.Source(job)| && job.query.Selects(raw[i]);
      EmptyBatchGap(raw, job.query, p.Source(job), q, job.dense, left, i);
    }
  }

  lemma NonDenseEmptyBatch(source: seq<KeyValue>, q: ScanRequest, dense: bool, left: seq<KeyValue>)
    requires PartialBatch(source, q, dense, [], left)
    ensures !dense
  {
  }

  lemma OpenedKeeps(job: Job, cache: Cache, p: Position, cache': Cache, r: ScanReply, left: seq<KeyValue>)
    requires p.Valid(job, cache) && p.gpidIndex < |job.slice|
    requires p.status == BATCH_EMPTY && p.index + 1 >= |p.entries|
    requires cache.Precedes(cache') && cache'.Valid(job.partitions)
    requires !job.query.RangeEmpty() && r.error == OK
    requires cache'.Answers(p.curGpid, p.ResumeRequest(job.query), p.Source(job), job.dense, r, left, cache.nextId)
    ensures p.Opened(r, Select(left, p.ResumeRequest(job.query))).Valid(job, cache')
  {
    hide Less, Select, Batch, PartialBatch, ScanRequest.RangeEmpty, Sorted, Job.Head, Job.Gappy, Position.Passed, Position.Resumable, Gap, Agree, AllIn, Cache.Precedes, Seek, ScanRequest.Selects;
    var raw, q := job.partitions[p.curGpid], p.ResumeRequest(job.query);
    var p' := p.Opened(r, Select(left, q));
    ResumePoint(job, cache, p);
    SourceOf(job, cache, p);
    BatchFits(job, p', p.Source(job), q, r, left);
    BatchSuffix(p.Source(job), q, r.kvs, left);
    AgreeSuffix(left, p.Source(job), q, job.query);
    OpenedPassed(job, cache, p, r, Select(left, q));
    if r.contextId != COMPLETED {
      OpenedResumable(job, cache, p, cache', r, left);
    }
    assert p.delivered + p.Pending() + p.rest == p.delivered + p.rest;
    assert p'.delivered + Select(raw, q) == job.Matching(p.curGpid);
  }

  lemma OpenedWork(job: Job, cache: Cache, p: Position, cache': Cache, r: ScanReply, left: seq<KeyValue>)
    requires p.Valid(job, cache) && p.gpidIndex < |job.slice| && p.status == BATCH_EMPTY
    requires cache.Precedes(cache') && cache'.Valid(job.partitions)
    requires cache'.Answers(p.curGpid, p.ResumeRequest(job.query), p.Source(job), job.dense, r, left, cache.nextId)
    ensures p.Opened(r, Select(left, p.ResumeRequest(job.query))).Work(job, cache') < p.Work(job, cache)
  {
    LossWorkMonotone(cache'.lossesLeft, cache.lossesLeft, Longest(job.partitions));
  }

  /** An empty range is answered with no records and context id 0. */
  lemma OpenedEmptyRangeKeeps(job: Job, cache: Cache, p: Position, cache': Cache)
    requires p.Valid(job, cache) && p.gpidIndex < |job.slice|
    requires p.status == BATCH_EMPTY && p.index + 1 >= |p.entries|
    requires cache.Precedes(cache') && cache'.Valid(job.partitions)
    requires job.query.RangeEmpty()
    ensures p.Opened(ScanReply(OK, [], 0), []).Valid(job, cache')
  {
    hide Select, Cache.Valid, Cache.Precedes, Less, ScanRequest.RangeEmpty, Job.Gappy, Job.Head;
    EmptyRangeHandsOutNothing(job, cache, p);
    var p' := p.Opened(ScanReply(OK, [], 0), []);
    assert p' == p.(entries := [], index := -1, status := 0);
    StatusKeeps(job, cache, p, cache', 0);
  }

  lemma ContinuedKeeps(job: Job, cache: Cache, p: Position, cache': Cache, r: ScanReply, left: seq<KeyValue>)
    requires p.Valid(job, cache) && p.gpidIndex < |job.slice|
    requires cache.Holds(p.curGpid, p.status) && p.index + 1 >= |p.entries|
    requires cache.Precedes(cache') && cache'.Valid(job.partitions) && r.error == OK
    requires var c := cache.contexts[p.status];
             cache'.Answers(p.curGpid, c.request, c.rest, job.dense, r, left, cache.nextId)
    ensures p.Continued(r, Select(left, cache.contexts[p.status].request)).Valid(job, cache')
  {
    hide Less, Select, Batch, PartialBatch, ScanRequest.RangeEmpty, Sorted, Job.Head, Job.Gappy, Position.Resumable, Gap, Agree, AllIn;
    var c := cache.contexts[p.status];
    var p' := p.Continued(r, Select(left, c.request));
    BatchFits(job, p', c.rest, c.request, r, left);
    BatchSuffix(c.rest, c.request, r.kvs, left);
    AgreeSuffix(left, c.rest, c.request, job.query);
    if r.contextId != COMPLETED {
      ContinuedResumable(job, cache, p, cache', r, left);
    }
    assert p.delivered + p.Pending() + p.rest == p.delivered + p.rest;
    assert p'.Passed(job) == p.Passed(job);
  }

  lemma ContinuedResumable(job: Job, cache: Cache, p: Position, cache': Cache, r: ScanReply, left: seq<KeyValue>)
    requires p.Valid(job, cache) && p.gpidIndex < |job.slice|
    requires cache.Holds(p.curGpid, p.status) && p.index + 1 >= |p.entries| && r.contextId != COMPLETED
    requires var c := cache.contexts[p.status];
             cache'.Answers(p.curGpid, c.request, c.rest, job.dense, r, left, cache.nextId)
    ensures p.Continued(r, Select(left, cache.contexts[p.status].request)).Resumable(job)
  {
    hide Less, Select, Batch, PartialBatch, ScanRequest.RangeEmpty, Job.Head, Job.Gappy, Position.Passed, Gap, Agree;
    var c, raw := cache.contexts[p.status], job.partitions[p.curGpid];
    var p' := p.Continued(r, Select(left, c.request));
    if r.kvs != [] {
      BatchFits(job, p', c.rest, c.request, r, left);
    } else if p.delivered != [] {
      NonDenseEmptyBatch(c.rest, c.request, job.dense, left);
      assert p.delivered + p.Pending() + p.rest == p.delivered + p.rest;
      var i := DeliveredBefore(raw, job.query, c, p.delivered);
      EmptyBatchGap(raw, job.query, c.rest, c.request, job.dense, left, i);
    }
  }

  /** What was delivered lies in the partition before the context. */
  lemma DeliveredBefore(raw: seq<KeyValue>, q: ScanRequest, c: ScanContext, delivered: seq<KeyValue>) returns (i: nat)
    requires Suffix(c.rest, raw) && Agree(c.rest, c.request, q) && delivered != []
    requires delivered + Select(c.rest, c.request) == Select(raw, q)
    ensures i < |raw| - |c.rest| && q.Selects(raw[i])
  {
    var n := |raw| - |c.rest|;
    AgreeSelects(c.rest, c.request, q);
    assert raw == raw[..n] + c.rest;
    SelectConcat(raw[..n], c.rest, q);
    assert delivered == Select(raw[..n], q) by {
      assert |delivered| == |Select(raw[..n], q)|;
      assert delivered == Select(raw, q)[..|delivered|];
    }
    i := SelectedAt(raw[..n], q, delivered[0]);
  }

  lemma ContinuedWork(job: Job, cache: Cache, p: Position, cache': Cache, r: ScanReply, left: seq<KeyValue>)
    requires p.Valid(job, cache) && p.gpidIndex < |job.slice| && cache.Holds(p.curGpid, p.status)
    requires cache.Precedes(cache') && cache'.Valid(job.partitions)
    requires var c := cache.contexts[p.status];
             cache'.Answers(p.curGpid, c.request, c.rest, job.dense, r, left, cache.nextId)
    ensures p.Continued(r, Select(left, cache.contexts[p.status].request)).Work(job, cache') < p.Work(job, cache)
  {
    LossWorkMonotone(cache'.lossesLeft, cache.lossesLeft, Longest(job.partitions));
  }

  /** Restarting with an empty buffer after records of the partition were handed out makes
      the next record to come one that was handed out before. */
  lemma EmptyBufferRestartRepeats(
    job: Job, cache: Cache, p: Position, cache': Cache, r: ScanReply, left: seq<KeyValue>)
    requires p.Valid(job, cache) && p.gpidIndex < |job.slice|
    requires p.status == BATCH_EMPTY && p.entries == [] && p.delivered != []
    requires cache.Precedes(cache') && cache'.Valid(job.partitions) && r.error == OK
    requires cache'.Answers(p.curGpid, p.ResumeRequest(job.query), p.Source(job), job.dense, r, left, cache.nextId)
    ensures var p' := p.Opened(r, Select(left, p.ResumeRequest(job.query)));
            && p'.repeats > p.repeats
            && p'.Pending() + p'.rest != []
            && (p'.Pending() + p'.rest)[0] in p'.emitted
  {
    hide Less, Select, Batch, PartialBatch, ScanRequest.RangeEmpty, Sorted, Job.Head, Cache.Valid, Cache.Answers, AllIn;
    if job.query.RangeEmpty() {
      EmptyRangeHandsOutNothing(job, cache, p);
      assert false;
    }
    OpenedKeeps(job, cache, p, cache', r, left);
    var p' := p.Opened(r, Select(left, p.ResumeRequest(job.query)));
    assert p'.delivered + p'.Pending() + p'.rest == p'.Pending() + p'.rest;
    assert (p.delivered + p.Pending() + p.rest)[0] == p.delivered[0];
    assert p.delivered[0] == p.Passed(job)[|job.Head(p.gpidIndex + 1)|];
  }
}
