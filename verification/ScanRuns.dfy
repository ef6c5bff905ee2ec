/** The runs of a scan as sequences of steps on values, and which scans can come out wrong. The
    steps are those the scanner's methods take: what each does to the position and to the
    server's cache is stated by the same functions. */
module ScanRuns {

  import opened Bytes
  import opened KeyCodec
  import opened ScanProgress
  import opened ScanServer

  datatype Event =
    | Turn
    | HandOut
    | Open(reply: ScanReply, left: seq<KeyValue>, after: Cache)
    | Continue(reply: ScanReply, left: seq<KeyValue>, after: Cache)
    | Missing(after: Cache)
    | Fail(after: Cache)
    | Rearm

  datatype State = State(p: Position, cache: Cache)
  {
    /** The buffer is used up, in a partition of the slice. */
    ghost predicate Drained(job: Job)
    {
      && 0 <= p.gpidIndex < |job.slice| && p.curGpid < |job.partitions| && p.index + 1 >= |p.entries|
    }

    ghost predicate Moves(job: Job, after: Cache)
    {
      cache.Precedes(after) && after.Valid(job.partitions)
    }

    ghost predicate Enabled(job: Job, e: Event)
    {
      && job.Valid()
      && match e
         case Turn =>
           p.status == BATCH_SCAN_FINISHED && p.index + 1 >= |p.entries| && 0 < p.gpidIndex <= |job.slice|
         case HandOut => -1 <= p.index && p.index + 1 < |p.entries|
         case Open(r, left, after) =>
           && Drained(job) && Moves(job, after) && p.status == BATCH_EMPTY
           && !job.query.RangeEmpty() && r.error == OK
           && after.Answers(p.curGpid, p.ResumeRequest(job.query), p.Source(job), job.dense, r, left, cache.nextId)
         case Continue(r, left, after) =>
           && Drained(job) && Moves(job, after) && cache.Holds(p.curGpid, p.status) && r.error == OK
           && var c := cache.contexts[p.status];
              after.Answers(p.curGpid, c.request, c.rest, job.dense, r, left, cache.nextId)
         case Missing(after) =>
           && Drained(job) && Moves(job, after)
           && p.status != BATCH_SCAN_FINISHED && p.status != BATCH_EMPTY
           && !after.Holds(p.curGpid, p.status)
           && (!cache.Holds(p.curGpid, p.status) || after.lossesLeft < cache.lossesLeft)
         case Fail(after) => Drained(job) && Moves(job, after) && p.status != BATCH_SCAN_FINISHED
         case Rearm => 0 <= p.gpidIndex < |job.slice| && p.status == BATCH_RPC_ERROR
    }

    ghost function Step(job: Job, e: Event): State
      requires Enabled(job, e)
    {
      match e
      case Turn => State(p.NextPartition(job), cache)
      case HandOut => State(p.HandOut(), cache)
      case Open(r, left, after) => State(p.Opened(r, Select(left, p.ResumeRequest(job.query))), after)
      case Continue(r, left, after) => State(p.Continued(r, Select(left, cache.contexts[p.status].request)), after)
      case Missing(after) => State(p.(status := BATCH_EMPTY), after)
      case Fail(after) => State(p.(status := BATCH_RPC_ERROR), after)
      case Rearm => State(p.(status := BATCH_SCANNING), cache)
    }
  }

  /** Before the first partition, with no context at the server. */
  function Initial(job: Job, firstId: int, losses: nat): State
  {
    State(Position(|job.slice|, 0, [], -1, BATCH_SCAN_FINISHED, [], [], [], 0), Cache(map[], firstId, losses))
  }

  ghost predicate IsRun(job: Job, s: State, run: seq<Event>)
    decreases |run|
  {
    run == [] || (s.Enabled(job, run[0]) && IsRun(job, s.Step(job, run[0]), run[1..]))
  }

  ghost function After(job: Job, s: State, run: seq<Event>): State
    requires IsRun(job, s, run)
    decreases |run|
  {
    if run == [] then s else After(job, s.Step(job, run[0]), run[1..])
  }

  lemma StepKeeps(job: Job, s: State, e: Event)
    requires s.p.Valid(job, s.cache) && s.Enabled(job, e)
    ensures s.Step(job, e).p.Valid(job, s.Step(job, e).cache)
  {
    hide Position.Valid, Cache.Valid, Cache.Precedes, Cache.Answers, Select, Seek, ScanRequest.RangeEmpty, Job.Valid;
    match e
    case Turn => NextPartitionKeeps(job, s.cache, s.p);
    case HandOut => HandOutKeeps(job, s.cache, s.p);
    case Open(r, left, after) => OpenedKeeps(job, s.cache, s.p, after, r, left);
    case Continue(r, left, after) => ContinuedKeeps(job, s.cache, s.p, after, r, left);
    case Missing(after) => StatusKeeps(job, s.cache, s.p, after, BATCH_EMPTY);
    case Fail(after) => StatusKeeps(job, s.cache, s.p, after, BATCH_RPC_ERROR);
    case Rearm =>
      CacheOf(job, s);
      StatusKeeps(job, s.cache, s.p, s.cache, BATCH_SCANNING);
  }

  lemma CacheOf(job: Job, s: State)
    requires s.p.Valid(job, s.cache)
    ensures s.Moves(job, s.cache)
  {
    PrecedesItself(s.cache, job.partitions);
  }

  lemma {:induction false} RunKeeps(job: Job, s: State, run: seq<Event>)
    requires s.p.Valid(job, s.cache) && IsRun(job, s, run)
    ensures After(job, s, run).p.Valid(job, After(job, s, run).cache)
    decreases |run|
  {
    hide Position.Valid, State.Step, State.Enabled;
    if run != [] {
      StepKeeps(job, s, run[0]);
      RunKeeps(job, s.Step(job, run[0]), run[1..]);
    }
  }

  lemma Stop(job: Job, s: State)
    ensures IsRun(job, s, []) && After(job, s, []) == s
  {
  }

  lemma Prepend(job: Job, s: State, e: Event, rest: seq<Event>)
    requires s.Enabled(job, e) && IsRun(job, s.Step(job, e), rest)
    ensures IsRun(job, s, [e] + rest) && After(job, s, [e] + rest) == After(job, s.Step(job, e), rest)
  {
    hide State.Step, State.Enabled;
    assert ([e] + rest)[1..] == rest;
  }

  lemma {:induction false} RunConcat(job: Job, s: State, run: seq<Event>, more: seq<Event>)
    requires IsRun(job, s, run) && IsRun(job, After(job, s, run), more)
    ensures IsRun(job, s, run + more) && After(job, s, run + more) == After(job, After(job, s, run), more)
    decreases |run|
  {
    hide State.Step, State.Enabled;
    if run == [] {
      assert run + more == more;
    } else {
      RunConcat(job, s.Step(job, run[0]), run[1..], more);
      assert (run + more)[1..] == run[1..] + more;
    }
  }

  /** Every buffered record is handed out. */
  lemma {:induction false} HandOutAll(job: Job, s: State) returns (run: seq<Event>)
    requires job.Valid() && -1 <= s.p.index
    ensures IsRun(job, s, run)
    ensures var s' := After(job, s, run);
            && s'.cache == s.cache && s'.p.index + 1 >= |s'.p.entries|
            && s'.p == s.p.(index := s'.p.index, emitted := s.p.emitted + s.p.Pending(), delivered := s.p.delivered + s.p.Pending())
    decreases |s.p.entries| - s.p.index
  {
    hide IsRun, After, Job.Valid;
    Stop(job, s);
    if s.p.index + 1 < |s.p.entries| {
      var s1 := s.Step(job, HandOut);
      assert s.p.Pending() == [s.p.entries[s.p.index + 1]] + s1.p.Pending();
      var rest := HandOutAll(job, s1);
      Prepend(job, s, HandOut, rest);
      run := [HandOut] + rest;
    } else {
      run := [];
      assert s.p.Pending() == [];
      assert s.p.emitted + [] == s.p.emitted && s.p.delivered + [] == s.p.delivered;
    }
  }

  /** The partition is read to its end in one batch and handed out. */
  lemma FinishPartition(job: Job, s: State) returns (run: seq<Event>)
    requires s.p.Valid(job, s.cache) && s.Drained(job) && s.p.status == BATCH_EMPTY && !job.query.RangeEmpty()
    ensures IsRun(job, s, run)
    ensures var s' := After(job, s, run);
            && s'.cache == s.cache && s'.p.status == BATCH_SCAN_FINISHED && s'.p.index + 1 >= |s'.p.entries|
            && s'.p.gpidIndex == s.p.gpidIndex
            && s'.p.repeats == s.p.repeats + (if s.p.entries == [] then |s.p.delivered| else 0)
            && s'.p.emitted == s.p.emitted + Select(s.p.Source(job), s.p.ResumeRequest(job.query))
  {
    hide Position.Valid, IsRun, After, Select, Seek, Job.Valid;
    var q, source := s.p.ResumeRequest(job.query), s.p.Source(job);
    var r := ScanReply(OK, Select(source, q), COMPLETED);
    ValidBounds(job, s.cache, s.p);
    CacheOf(job, s);
    WholeBatch(s.cache, s.p.curGpid, q, source, job.dense, r, s.cache.nextId);
    var e := Open(r, [], s.cache);
    var s1 := s.Step(job, e);
    assert s1.p.Pending() == r.kvs;
    var rest := HandOutAll(job, s1);
    Prepend(job, s, e, rest);
    run := [e] + rest;
  }

  /** A partition is finished, or none is started. */
  ghost predicate Between(job: Job, s: State)
  {
    && s.p.Valid(job, s.cache)
    && s.p.status == BATCH_SCAN_FINISHED && s.p.index + 1 >= |s.p.entries|
  }

  /** From between two partitions to the start of partition `k` of the slice. */
  lemma {:induction false} ReachPartition(job: Job, s: State, k: nat) returns (run: seq<Event>)
    requires Between(job, s) && k < s.p.gpidIndex && !job.query.RangeEmpty()
    ensures IsRun(job, s, run)
    ensures var s' := After(job, s, run);
            && s'.p.Valid(job, s'.cache) && s'.cache == s.cache
            && s'.p.gpidIndex == k && s'.p.status == BATCH_EMPTY && s'.p.index == -1
            && s'.p.entries == [] && s'.p.delivered == [] && s'.p.repeats == s.p.repeats
            && (s.p.gpidIndex == k + 1 ==> s'.p.emitted == s.p.emitted)
    decreases s.p.gpidIndex
  {
    hide Position.Valid, IsRun, After, Select, Job.Valid, ScanRequest.RangeEmpty;
    ValidBounds(job, s.cache, s.p);
    var s1 := s.Step(job, Turn);
    StepKeeps(job, s, Turn);
    Stop(job, s1);
    run := [];
    if s1.p.gpidIndex > k {
      ValidBounds(job, s1.cache, s1.p);
      var finish := FinishPartition(job, s1);
      RunKeeps(job, s1, finish);
      var rest := ReachPartition(job, After(job, s1, finish), k);
      RunConcat(job, s1, finish, rest);
      run := finish + rest;
    }
    Prepend(job, s, Turn, run);
    run := [Turn] + run;
  }

  /** From between two partitions to the end of the scan. */
  lemma {:induction false} FinishAll(job: Job, s: State) returns (run: seq<Event>)
    requires Between(job, s) && !job.query.RangeEmpty()
    ensures IsRun(job, s, run)
    ensures var s' := After(job, s, run);
            && s'.p.Valid(job, s'.cache) && s'.p.AtEnd() && s'.p.repeats == s.p.repeats
            && (s.p.gpidIndex == 0 ==> s' == s)
    decreases s.p.gpidIndex
  {
    hide Position.Valid, IsRun, After, Select, Job.Valid, ScanRequest.RangeEmpty;
    ValidBounds(job, s.cache, s.p);
    if s.p.gpidIndex == 0 {
      run := [];
      Stop(job, s);
    } else {
      var reach := ReachPartition(job, s, s.p.gpidIndex - 1);
      var s1 := After(job, s, reach);
      ValidBounds(job, s1.cache, s1.p);
      var finish := FinishPartition(job, s1);
      RunKeeps(job, s1, finish);
      var rest := FinishAll(job, After(job, s1, finish));
      RunConcat(job, s1, finish, rest);
      RunConcat(job, s, reach, finish + rest);
      run := reach + (finish + rest);
    }
  }

  /** The cache after all contexts were lost. */
  function Lost(cache: Cache): Cache
    requires cache.lossesLeft > 0
  {
    Cache(map[], cache.nextId, cache.lossesLeft - 1)
  }

  lemma LostMoves(cache: Cache, partitions: seq<seq<KeyValue>>)
    requires cache.Valid(partitions) && cache.lossesLeft > 0
    ensures Lost(cache).Valid(partitions) && cache.Precedes(Lost(cache))
  {
  }

  lemma SelectsSome(s: seq<KeyValue>, q: ScanRequest, i: nat)
    requires i < |s| && q.Selects(s[i])
    ensures Select(s, q) != []
  {
    if Select(s, q) == [] {
      NoneSelected(s, q);
    }
  }

  /** Where a gap lies in what the server reads. */
  lemma GapInSource(raw: seq<KeyValue>, q: ScanRequest, i: nat, j: nat) returns (m: nat)
    requires Sorted(raw) && q.WellFormed() && GapAt(raw, q, i, j)
    ensures var source := Seek(raw, q);
            && m == j - (|raw| - |source|)
            && Suffix(source, raw) && Sorted(source) && !q.RangeEmpty()
            && 0 < m && m + 1 < |source| && Suffix(source[m..], raw) && Suffix(source[m + 1..], raw)
            && Select(source[..m], q) != [] && !q.Selects(source[m])
            && Less(source[m - 1].key, q.stop) && Less(source[m].key, q.stop)
  {
    hide Select, Seek, ScanRequest.RangeEmpty, ScanRequest.Selects, ScanRequest.PassesOver, ScanRequest.WellFormed, Less;
    SeekSelects(raw, q);
    SeekSorted(raw, q);
    var source := Seek(raw, q);
    var n := |raw| - |source|;
    if i < n {
      PassedOverUnselected(q, raw[i]);
    }
    m := j - n;
    assert source[i - n] == raw[i] && source[m] == raw[j] && source[m - 1] == raw[j - 1];
    assert source[..m][i - n] == raw[i];
    SelectsSome(source[..m], q, i - n);
    LessTransitive(raw[j - 1].key, raw[j].key, q.stop);
    if q.RangeEmpty() {
      SelectEmptyRange(raw, q);
      SelectsSome(raw, q, i);
    }
  }

  /** The next batch is empty, and its context is lost. */
  lemma EmptyThenLost(job: Job, s: State, q: ScanRequest, left: seq<KeyValue>) returns (run: seq<Event>)
    requires job.Valid() && s.Drained(job) && !job.dense && s.cache.Valid(job.partitions) && s.cache.lossesLeft > 0
    requires s.cache.Holds(s.p.curGpid, s.p.status) && !Reserved(s.cache.nextId)
    requires s.cache.contexts[s.p.status] == ScanContext(s.p.curGpid, q, left)
    requires |left| > 1 && !q.Selects(left[0]) && Less(left[0].key, q.stop)
    requires Sorted(left) && Suffix(left[1..], job.partitions[s.p.curGpid])
    ensures IsRun(job, s, run)
    ensures After(job, s, run).p == s.p.(entries := [], index := -1, status := BATCH_EMPTY, rest := Select(left[1..], q))
  {
    hide Job.Valid, IsRun, After, Select, Less, Sorted, Suffix, Cache.Valid, Cache.Precedes;
    var c := ScanContext(s.p.curGpid, q, left[1..]);
    var cache, id := Stored(s.cache, c), s.cache.nextId;
    var r := ScanReply(OK, [], id);
    SortedSuffix(left, 1);
    StoredMoves(s.cache, job.partitions, c);
    EmptySelect(left, q);
    PartAnswers(cache, s.p.curGpid, q, left, false, r, 1);
    var e := Continue(r, left[1..], cache);
    var s1 := s.Step(job, e);
    LostMoves(cache, job.partitions);
    var s2 := s1.Step(job, Missing(Lost(cache)));
    Stop(job, s2);
    Prepend(job, s1, Missing(Lost(cache)), []);
    Prepend(job, s, e, [Missing(Lost(cache))] + []);
    run := [e] + ([Missing(Lost(cache))] + []);
  }

  lemma SuffixTail(s: seq<KeyValue>, m: nat)
    requires m < |s|
    ensures s[m..][1..] == s[m + 1..]
  {
  }

  /** A batch up to the gap is delivered, the gap gives an empty batch, and the context is lost:
      the scanner stands in the partition with nothing to resume from. */
  lemma LoseInGap(job: Job, s: State, m: nat) returns (run: seq<Event>)
    requires s.p.Valid(job, s.cache) && s.Drained(job) && !job.dense && s.cache.lossesLeft > 0
    requires s.p.status == BATCH_EMPTY && s.p.index == -1 && s.p.entries == [] && s.p.delivered == []
    requires var raw, q := job.partitions[s.p.curGpid], job.query;
             var source := Seek(raw, q);
             && Sorted(source) && Suffix(source, raw) && !q.RangeEmpty()
             && 0 < m && m + 1 < |source| && Suffix(source[m..], raw) && Suffix(source[m + 1..], raw)
             && Select(source[..m], q) != [] && !q.Selects(source[m])
             && Less(source[m - 1].key, q.stop) && Less(source[m].key, q.stop)
    ensures IsRun(job, s, run)
    ensures var s', first := After(job, s, run), Select(Seek(job.partitions[s.p.curGpid], job.query)[..m], job.query);
            && s'.p.Valid(job, s'.cache) && s'.p.gpidIndex == s.p.gpidIndex && s'.p.curGpid == s.p.curGpid
            && s'.p.status == BATCH_EMPTY && s'.p.index == -1 && s'.p.entries == []
            && s'.p.delivered == first && s'.p.emitted == s.p.emitted + first && s'.p.repeats == s.p.repeats
  {
    hide Position.Valid, Job.Valid, IsRun, After, Select, Seek, ScanRequest.RangeEmpty, Less, Sorted, Suffix, Cache.Valid, Cache.Precedes;
    var raw, q := job.partitions[s.p.curGpid], job.query;
    var source := Seek(raw, q);
    var first, left := Select(source[..m], q), source[m..];
    ValidCache(job, s);
    ValidBounds(job, s.cache, s.p);

    var c1 := ScanContext(s.p.curGpid, q, left);
    var cache1, id1 := Stored(s.cache, c1), s.cache.nextId;
    var r1 := ScanReply(OK, first, id1);
    SortedSuffix(source, m);
    StoredMoves(s.cache, job.partitions, c1);
    PartAnswers(cache1, s.p.curGpid, q, source, false, r1, m);
    var open := Open(r1, left, cache1);
    var s1 := s.Step(job, open);
    assert s1.p.Pending() == first;

    var hand := HandOutAll(job, s1);
    var s2 := After(job, s1, hand);
    assert s2.p.delivered == [] + first == first;

    SuffixTail(source, m);
    run := EmptyThenLost(job, s2, q, left);
    RunConcat(job, s1, hand, run);
    Prepend(job, s, open, hand + run);
    run := [open] + (hand + run);
    RunKeeps(job, s, run);
  }

  lemma ValidCache(job: Job, s: State)
    requires s.p.Valid(job, s.cache)
    ensures s.cache.Valid(job.partitions) && job.Valid() && !Reserved(s.cache.nextId)
  {
  }

  lemma EmptySelect(s: seq<KeyValue>, q: ScanRequest)
    requires s != [] && !q.Selects(s[0])
    ensures Select(s[..1], q) == []
  {
    assert s[..1][1..] == [];
  }

  lemma InitialBetween(job: Job, firstId: int, losses: nat)
    requires job.Valid() && !Reserved(firstId)
    ensures Between(job, Initial(job, firstId, losses))
  {
  }

  /** A gap in partition `k` of the slice: a run that delivers the records before the gap twice
      and still completes. */
  lemma RepeatingRun(job: Job, firstId: int, losses: nat, k: nat, i: nat, j: nat) returns (run: seq<Event>, m: nat)
    requires job.Valid() && !job.dense && !Reserved(firstId) && losses > 0
    requires k < |job.slice| && GapAt(job.partitions[job.slice[k]], job.query, i, j)
    ensures var s0, source := Initial(job, firstId, losses), Seek(job.partitions[job.slice[k]], job.query);
            && IsRun(job, s0, run) && m <= |source|
            && m == j - (|job.partitions[job.slice[k]]| - |source|)
            && var s' := After(job, s0, run);
               && s'.p.Valid(job, s'.cache) && s'.p.AtEnd() && s'.p.repeats > 0
               && (k == 0 && |job.slice| == 1 ==>
                     s'.p.emitted == Select(source[..m], job.query) + Select(source, job.query))
  {
    hide Position.Valid, Job.Valid, IsRun, After, Select, Seek, ScanRequest.RangeEmpty, Less, Sorted, Suffix, GapAt;
    JobFacts(job, k);
    var s0, raw := Initial(job, firstId, losses), job.partitions[job.slice[k]];
    InitialBetween(job, firstId, losses);
    m := GapInSource(raw, job.query, i, j);
    var reach := ReachPartition(job, s0, k);
    var s1 := After(job, s0, reach);
    InSlice(job, s1);
    ValidBounds(job, s1.cache, s1.p);
    var lose := LoseInGap(job, s1, m);
    var s2 := After(job, s1, lose);
    ValidBounds(job, s2.cache, s2.p);
    var again := FinishPartition(job, s2);
    RunKeeps(job, s2, again);
    var s3 := After(job, s2, again);
    var last := FinishAll(job, s3);
    RunConcat(job, s2, again, last);
    RunConcat(job, s1, lose, again + last);
    RunConcat(job, s0, reach, lose + (again + last));
    run := reach + (lose + (again + last));
    var first := Select(Seek(raw, job.query)[..m], job.query);
    assert |job.slice| == 1 ==> s3.p.emitted == [] + first + Select(Seek(raw, job.query), job.query);
  }

  lemma JobFacts(job: Job, k: nat)
    requires job.Valid() && k < |job.slice|
    ensures job.slice[k] < |job.partitions| && Sorted(job.partitions[job.slice[k]]) && job.query.WellFormed()
  {
    assert job.partitions[job.slice[k]] in job.partitions;
  }

  lemma InSlice(job: Job, s: State)
    requires s.p.Valid(job, s.cache) && s.p.gpidIndex < |job.slice|
    ensures 0 <= s.p.gpidIndex && s.p.curGpid == job.slice[s.p.gpidIndex]
  {
  }

  /** A run that completes with something else than the expected records. */
  ghost predicate ComesOutWrong(job: Job, s: State, run: seq<Event>)
    requires job.Valid()
  {
    IsRun(job, s, run) && After(job, s, run).p.AtEnd() && After(job, s, run).p.emitted != job.Expected()
  }

  /** Which scans can come out wrong, known before they start: a scan whose contexts can be lost
      has a completing run with other records than the expected ones if and only if a partition
      of its slice holds a selected record, an unselected one behind it below the stop key, and
      a further record behind that. A partition is what the server's iterator runs over: with a
      prefix extractor and a start key that has a hash key, the records of that hash key only.
      Any prefix of the records can end a batch. */
  lemma WrongIffGap(job: Job, firstId: int, losses: nat)
    requires job.Valid() && !job.dense && !Reserved(firstId) && losses > 0
    ensures (exists run :: ComesOutWrong(job, Initial(job, firstId, losses), run)) <==> job.Gappy()
  {
    hide Position.Valid, Position.AtEnd, IsRun, After, GapAt, Sorted, ScanRequest.WellFormed, Job.Expected;
    var s0 := Initial(job, firstId, losses);
    InitialBetween(job, firstId, losses);
    if run :| ComesOutWrong(job, s0, run) {
      RunKeeps(job, s0, run);
      var s := After(job, s0, run);
      EndOfScan(job, s.cache, s.p);
    }
    if job.Gappy() {
      var k :| 0 <= k < |job.slice| && Gap(job.partitions[job.slice[k]], job.query);
      var i, j :| GapAt(job.partitions[job.slice[k]], job.query, i, j);
      GapIndices(job.partitions[job.slice[k]], job.query, i, j);
      var run, m := RepeatingRun(job, firstId, losses, k, i, j);
      var s := After(job, s0, run);
      EndOfScan(job, s.cache, s.p);
      assert ComesOutWrong(job, s0, run);
    }
  }

  lemma GapIndices(s: seq<KeyValue>, q: ScanRequest, i: int, j: int)
    requires GapAt(s, q, i, j)
    ensures 0 <= i && 0 <= j
  {
  }

  // A table with three records under hash key "1"; the scan filters the second out. With
  // batch size 1 the second batch reads this record only.

  const HASH_KEY: ByteString := [1]
  const A := KeyValue(Encode(HASH_KEY, [1]), [])
  const B := KeyValue(Encode(HASH_KEY, [2]), [])
  const C := KeyValue(Encode(HASH_KEY, [3]), [])
  const QUERY := ScanRequest(Encode(HASH_KEY, []), true, Encode(HASH_KEY, [9]), false, [], (kv: KeyValue) => kv != B)
  const JOB := Job([[A, B, C]], false, [0], QUERY)

  lemma JobSetup()
    ensures JOB.Valid() && GapAt([A, B, C], QUERY, 0, 1)
    ensures Seek([A, B, C], QUERY) == [A, B, C]
    ensures Select([A, B, C], QUERY) == [A, C] && Select([A], QUERY) == [A]
    ensures JOB.Expected() == [A, C]
  {
    hide Encode;
    EncodeOrder(HASH_KEY, [], [1]);
    EncodeOrder(HASH_KEY, [], [3]);
    EncodeOrder(HASH_KEY, [1], [2]);
    EncodeOrder(HASH_KEY, [2], [3]);
    EncodeOrder(HASH_KEY, [1], [3]);
    EncodeOrder(HASH_KEY, [1], [9]);
    EncodeOrder(HASH_KEY, [2], [9]);
    EncodeOrder(HASH_KEY, [3], [9]);
    assert QUERY.Selects(A) && !QUERY.Selects(B) && QUERY.Selects(C);
    LessAsymmetric(QUERY.start, A.key);
    assert QUERY.Low() == QUERY.start && !QUERY.PassesOver(A);
    assert [A, B, C][1..] == [B, C] && [B, C][1..] == [C] && [C][1..] == [];
    assert [A][1..] == [];
    assert Select([C], QUERY) == [C];
    assert Select([B, C], QUERY) == [C];
    assert JOB.Head(1) == [];
  }

  /** A concrete run: every key is a composite key the client can restore, the scan completes,
      and the first record is handed out twice. */
  lemma EmptyBatchThenLossRepeats() returns (run: seq<Event>)
    ensures JOB.Valid() && JOB.Expected() == [A, C]
    ensures forall kv <- [A, B, C] :: Restore(kv.key).Keys?
    ensures var s := Initial(JOB, 1, 1);
            && IsRun(JOB, s, run) && After(JOB, s, run).p.AtEnd()
            && After(JOB, s, run).p.emitted == [A, A, C]
  {
    hide Encode, Restore, Select, Seek, IsRun, After, Job.Valid, Job.Expected;
    JobSetup();
    RestoreEncode(HASH_KEY, [1]);
    RestoreEncode(HASH_KEY, [2]);
    RestoreEncode(HASH_KEY, [3]);
    var m;
    run, m := RepeatingRun(JOB, 1, 1, 0, 0, 1);
    var emitted := After(JOB, Initial(JOB, 1, 1), run).p.emitted;
    assert m == 1 && [A, B, C][..1] == [A];
    assert emitted == Select([A], QUERY) + [A, C];
  }

  /** The first id of a server that draws 0xFFFFFFFF: shifted by 32 bits, as a signed 64-bit
      number. */
  const NEGATIVE_ID := -0x1_0000_0000

  /** A concrete run after which `Close` clears nothing although the server holds the scanner's
      context: its id is negative. */
  lemma NegativeContextStays() returns (run: seq<Event>)
    ensures JOB.Valid()
    ensures var s := Initial(JOB, NEGATIVE_ID, 0);
            && IsRun(JOB, s, run)
            && var s' := After(JOB, s, run);
               s'.cache.Holds(s'.p.curGpid, s'.p.status) && s'.p.status < BATCH_SCANNING
  {
    hide Encode, Select, Seek, IsRun, After, Job.Valid, Position.Valid, Cache.Valid, Cache.Precedes, Cache.Answers, Sorted, Suffix, Less;
    JobSetup();
    var s0 := Initial(JOB, NEGATIVE_ID, 0);
    InitialBetween(JOB, NEGATIVE_ID, 0);
    StepKeeps(JOB, s0, Turn);
    var s1 := s0.Step(JOB, Turn);
    ValidCache(JOB, s1);
    var c := ScanContext(0, QUERY, [B, C]);
    var r := ScanReply(OK, [A], NEGATIVE_ID);
    var cache := Stored(s1.cache, c);
    PartOfTable();
    assert [A, B, C][1..] == [B, C] && [A, B, C][..1] == [A];
    StoredMoves(s1.cache, JOB.partitions, c);
    PartAnswers(cache, 0, QUERY, [A, B, C], false, r, 1);
    var e := Open(r, [B, C], cache);
    Stop(JOB, s1.Step(JOB, e));
    Prepend(JOB, s1, e, []);
    Prepend(JOB, s0, Turn, [e] + []);
    run := [Turn] + ([e] + []);
  }

  lemma PartOfTable()
    ensures Sorted([B, C]) && Suffix([B, C], [A, B, C]) && Less(A.key, QUERY.stop) && !QUERY.RangeEmpty()
  {
    hide Encode;
    EncodeOrder(HASH_KEY, [2], [3]);
    EncodeOrder(HASH_KEY, [1], [9]);
    EncodeOrder(HASH_KEY, [], [9]);
    LessAsymmetric(QUERY.start, QUERY.stop);
    LessIrreflexive(QUERY.stop);
    assert QUERY.Low() == QUERY.start;
    assert [A, B, C][1..] == [B, C];
  }
}
