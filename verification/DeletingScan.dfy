/** The scan of one partition whose records are deleted while it goes on, as `DelRangeOpt` does
    with those it was handed: an open context goes on reading what the partition held when it
    was opened, a new one reads what is left. */
module DeletingScan {

  import opened Bytes
  import opened KeyCodec
  import opened RangeKeys
  import opened ScanProgress
  import opened ScanRange
  import opened ScanServer

  /** What is left of the records, in order. */
  function Remaining(s: seq<KeyValue>, deleted: set<KeyValue>): seq<KeyValue>
  {
    if s == [] then []
    else if s[0] in deleted then Remaining(s[1..], deleted)
    else [s[0]] + Remaining(s[1..], deleted)
  }

  lemma {:induction false} RemainingMembers(s: seq<KeyValue>, deleted: set<KeyValue>)
    ensures forall kv :: kv in Remaining(s, deleted) <==> kv in s && kv !in deleted
  {
    if s != [] {
      RemainingMembers(s[1..], deleted);
      assert s == [s[0]] + s[1..];
    }
  }

  lemma {:induction false} RemainingSorted(s: seq<KeyValue>, deleted: set<KeyValue>)
    requires Sorted(s)
    ensures Sorted(Remaining(s, deleted))
  {
    if s != [] {
      RemainingSorted(s[1..], deleted);
      RemainingMembers(s[1..], deleted);
      var t := Remaining(s[1..], deleted);
      forall i | 0 <= i < |t|
        ensures Less(s[0].key, t[i].key)
      {
        assert t[i] in s[1..];
      }
    }
  }

  /** Reading a context, without one, or done. */
  datatype Phase =
    | Reading(request: ScanRequest, rest: seq<KeyValue>)
    | NoContext
    | Finished

  datatype Event =
    | HandOut
    | Open(kvs: seq<KeyValue>, left: seq<KeyValue>, last: bool)
    | Continue(kvs: seq<KeyValue>, left: seq<KeyValue>, last: bool)
    | Lose
    | Delete(gone: set<KeyValue>)

  /** The reply to a read of `source`: the last batch, or one after which a context is kept. */
  ghost predicate Answered(source: seq<KeyValue>, q: ScanRequest, kvs: seq<KeyValue>, left: seq<KeyValue>, last: bool)
  {
    if last then Batch(source, q, kvs, left) && Select(left, q) == [] else PartialBatch(source, q, false, kvs, left)
  }

  datatype State = State(
    entries: seq<KeyValue>,
    /** How many of the buffered entries have been handed out. */
    index: nat,
    phase: Phase,
    emitted: seq<KeyValue>,
    deleted: set<KeyValue>)
  {
    function Pending(): seq<KeyValue>
    {
      if index < |entries| then entries[index..] else []
    }

    /** The request for a new context: behind the buffer's last record, or from the start. */
    function ResumeRequest(q: ScanRequest): ScanRequest
    {
      if entries == [] then q else q.After(entries[|entries| - 1].key)
    }

    /** What a new context reads. */
    function Source(raw: seq<KeyValue>, q: ScanRequest): seq<KeyValue>
    {
      Seek(Remaining(raw, deleted), ResumeRequest(q))
    }

    ghost predicate Enabled(raw: seq<KeyValue>, q: ScanRequest, e: Event)
    {
      match e
      case HandOut => index < |entries|
      case Open(kvs, left, last) =>
        && index >= |entries| && phase.NoContext? && !ResumeRequest(q).RangeEmpty()
        && Answered(Source(raw, q), ResumeRequest(q), kvs, left, last)
      case Continue(kvs, left, last) =>
        index >= |entries| && phase.Reading? && Answered(phase.rest, phase.request, kvs, left, last)
      case Lose => phase.Reading?
      case Delete(gone) => forall kv <- gone :: kv in emitted
    }

    ghost function Step(raw: seq<KeyValue>, q: ScanRequest, e: Event): State
      requires Enabled(raw, q, e)
    {
      match e
      case HandOut => this.(index := index + 1, emitted := emitted + [entries[index]])
      case Open(kvs, left, last) => Received(ResumeRequest(q), kvs, left, last)
      case Continue(kvs, left, last) => Received(phase.request, kvs, left, last)
      case Lose => this.(phase := NoContext)
      case Delete(gone) => this.(deleted := deleted + gone)
    }

    function Received(request: ScanRequest, kvs: seq<KeyValue>, left: seq<KeyValue>, last: bool): State
    {
      this.(entries := kvs, index := 0, phase := if last then Finished else Reading(request, left))
    }

    /** The record has reached the scanner: handed out or buffered. */
    ghost predicate Reached(kv: KeyValue)
    {
      kv in emitted || kv in Pending()
    }

    /** Only matching records have come out, and only such are gone. */
    ghost predicate OnlyMatching(raw: seq<KeyValue>, q: ScanRequest)
    {
      && (forall kv <- entries :: kv in raw && q.Selects(kv))
      && (forall kv <- emitted :: kv in raw && q.Selects(kv))
      && (forall kv <- deleted :: kv in emitted)
    }

    /** A context selects the matching records among those ahead of it. */
    ghost predicate Ahead(raw: seq<KeyValue>, q: ScanRequest)
    {
      phase.Reading? ==>
        && Sorted(phase.rest) && Agree(phase.rest, phase.request, q)
        && (forall kv <- phase.rest :: kv in raw)
    }

    /** A matching record that would be passed over: it has not reached the scanner, and it is not
        ahead of the context or would not be sought out again should that get lost. */
    ghost predicate Misses(raw: seq<KeyValue>, q: ScanRequest, kv: KeyValue)
    {
      && kv in raw && q.Selects(kv) && !Reached(kv)
      && match phase
         case Reading(_, rest) => kv !in rest || BelowResume(kv)
         case NoContext => BelowResume(kv)
         case Finished => true
    }

    /** A request that resumes after the buffer's last record does not reach this one. */
    ghost predicate BelowResume(kv: KeyValue)
    {
      entries != [] && !Less(entries[|entries| - 1].key, kv.key)
    }

    ghost predicate Valid(raw: seq<KeyValue>, q: ScanRequest)
    {
      && Sorted(raw) && q.WellFormed()
      && OnlyMatching(raw, q) && Ahead(raw, q)
      && forall kv :: !Misses(raw, q, kv)
    }
  }

  const INITIAL := State([], 0, NoContext, [], {})

  ghost predicate IsRun(raw: seq<KeyValue>, q: ScanRequest, s: State, run: seq<Event>)
    decreases |run|
  {
    run == [] || (s.Enabled(raw, q, run[0]) && IsRun(raw, q, s.Step(raw, q, run[0]), run[1..]))
  }

  ghost function After(raw: seq<KeyValue>, q: ScanRequest, s: State, run: seq<Event>): State
    requires IsRun(raw, q, s, run)
    decreases |run|
  {
    if run == [] then s else After(raw, q, s.Step(raw, q, run[0]), run[1..])
  }

  lemma InitialValid(raw: seq<KeyValue>, q: ScanRequest)
    requires Sorted(raw) && q.WellFormed()
    ensures INITIAL.Valid(raw, q)
  {
  }

  /** Everything a resumed request seeks out lies above the record it resumes from. */
  lemma ResumedAbove(s: seq<KeyValue>, q: ScanRequest, last: KeyValue, kv: KeyValue)
    requires Sorted(s) && q.WellFormed() && q.Selects(last)
    requires kv in Seek(s, q.After(last.key))
    ensures Less(last.key, kv.key)
  {
    hide Seek, Select, Less, ScanRequest.Selects, ScanRequest.PassesOver;
    var r := q.After(last.key);
    var source := Seek(s, r);
    SeekSelects(s, r);
    SeekSorted(s, r);
    ResumedLow(q, last, source[0]);
    var i :| 0 <= i < |source| && source[i] == kv;
    if i > 0 {
      LessTransitive(last.key, source[0].key, kv.key);
    }
  }

  /** What a new context reads: undeleted records, sorted, on which its request agrees with the
      scan's own, and among them every matching record that has not reached the scanner. */
  lemma SourceOf(raw: seq<KeyValue>, q: ScanRequest, s: State)
    requires s.Valid(raw, q) && s.phase.NoContext?
    ensures var source := s.Source(raw, q);
            && Sorted(source) && Agree(source, s.ResumeRequest(q), q)
            && (forall kv <- source :: kv in raw)
            && (forall kv <- raw :: q.Selects(kv) && !s.Reached(kv) ==> kv in source)
  {
    hide Seek, Select, Less, Remaining, ScanRequest.Selects, ScanRequest.PassesOver, Sorted, State.Pending;
    var left, r := Remaining(raw, s.deleted), s.ResumeRequest(q);
    var source := s.Source(raw, q);
    RemainingMembers(raw, s.deleted);
    RemainingSorted(raw, s.deleted);
    SeekSelects(left, r);
    SeekSorted(left, r);
    assert forall kv <- source :: kv in left;
    forall kv | kv in source
      ensures r.Selects(kv) <==> q.Selects(kv)
    {
      ResumedAgrees(raw, q, s, kv);
    }
    forall kv | kv in raw && q.Selects(kv) && !s.Reached(kv)
      ensures kv in source
    {
      assert !s.Misses(raw, q, kv);
      assert kv in left;
      SoughtOut(q, s, left, kv);
    }
  }

  lemma ResumedAgrees(raw: seq<KeyValue>, q: ScanRequest, s: State, kv: KeyValue)
    requires s.Valid(raw, q) && kv in s.Source(raw, q)
    ensures s.ResumeRequest(q).Selects(kv) <==> q.Selects(kv)
  {
    hide Seek, Less, Remaining, ScanRequest.Selects, Sorted, State.Misses, State.Ahead;
    if s.entries != [] {
      var last := s.entries[|s.entries| - 1];
      RemainingSorted(raw, s.deleted);
      ResumedAbove(Remaining(raw, s.deleted), q, last, kv);
      AfterAgrees(q, last, kv);
    }
  }

  /** A matching record above the resume point is among those sought out. */
  lemma SoughtOut(q: ScanRequest, s: State, left: seq<KeyValue>, kv: KeyValue)
    requires q.WellFormed() && kv in left && q.Selects(kv) && !s.BelowResume(kv)
    requires forall e <- s.entries :: q.Selects(e)
    ensures kv in Seek(left, s.ResumeRequest(q))
  {
    hide Seek, Select, Less, ScanRequest.Selects, ScanRequest.PassesOver;
    var r := s.ResumeRequest(q);
    if s.entries != [] {
      AfterAgrees(q, s.entries[|s.entries| - 1], kv);
    }
    SeekSelects(left, r);
    SelectedListed(left, r, kv);
    SelectMembers(Seek(left, r), r);
  }

  /** A reply keeps the invariant if what was read holds every matching record that has not
      reached the scanner. */
  lemma ReceivedKeeps(
    raw: seq<KeyValue>, q: ScanRequest, s: State, source: seq<KeyValue>, request: ScanRequest,
    kvs: seq<KeyValue>, left: seq<KeyValue>, last: bool)
    requires s.Valid(raw, q) && s.index >= |s.entries|
    requires Answered(source, request, kvs, left, last)
    requires Sorted(source) && Agree(source, request, q) && forall kv <- source :: kv in raw
    requires forall kv <- raw :: q.Selects(kv) && !s.Reached(kv) ==> kv in source
    ensures s.Received(request, kvs, left, last).Valid(raw, q)
  {
    hide Select, Less, ScanRequest.Selects, ScanRequest.WellFormed, Sorted, Answered, Agree, State.Misses;
    var s' := s.Received(request, kvs, left, last);
    ReceivedParts(source, q, request, kvs, left, last);
    assert s'.Pending() == kvs && s.Pending() == [];
    forall kv
      ensures !s'.Misses(raw, q, kv)
    {
      if kv in raw && q.Selects(kv) && !s'.Reached(kv) {
        assert kv in source;
        LeftUnreached(source, q, request, kvs, left, last, kv);
      }
      NotMissed(raw, q, s', kv);
    }
  }

  lemma NotMissed(raw: seq<KeyValue>, q: ScanRequest, s: State, kv: KeyValue)
    requires kv in raw && q.Selects(kv) && !s.Reached(kv) ==> s.phase.Reading? && kv in s.phase.rest && !s.BelowResume(kv)
    ensures !s.Misses(raw, q, kv)
  {
  }

  lemma ReceivedParts(
    source: seq<KeyValue>, q: ScanRequest, request: ScanRequest, kvs: seq<KeyValue>, left: seq<KeyValue>, last: bool)
    requires Answered(source, request, kvs, left, last) && Sorted(source) && Agree(source, request, q)
    ensures forall kv <- kvs :: kv in source && q.Selects(kv)
    ensures Sorted(left) && Agree(left, request, q) && forall kv <- left :: kv in source
  {
    hide Select, Less, ScanRequest.Selects;
    var j := |source| - |left|;
    SelectMembers(source[..j], request);
    AgreeSuffix(left, source, request, q);
    forall kv | kv in kvs
      ensures kv in source && q.Selects(kv)
    {
      var i :| 0 <= i < j && source[i] == kv;
    }
  }

  /** A matching record that a batch does not hold is left behind it, above all it holds. */
  lemma LeftUnreached(
    source: seq<KeyValue>, q: ScanRequest, request: ScanRequest, kvs: seq<KeyValue>, left: seq<KeyValue>, last: bool,
    kv: KeyValue)
    requires Answered(source, request, kvs, left, last) && Sorted(source) && Agree(source, request, q)
    requires kv in source && q.Selects(kv) && kv !in kvs
    ensures !last && kv in left && forall e <- kvs :: Less(e.key, kv.key)
  {
    hide Select, Less, ScanRequest.Selects;
    var j := |source| - |left|;
    var i :| 0 <= i < |source| && source[i] == kv;
    if i < j {
      assert source[..j][i] == kv;
      SelectedListed(source[..j], request, kv);
    }
    assert left[i - j] == kv;
    if last {
      SelectedListed(left, request, kv);
    }
    SelectMembers(source[..j], request);
    forall e | e in kvs
      ensures Less(e.key, kv.key)
    {
      var k :| 0 <= k < j && source[k] == e;
    }
  }

  lemma StepKeeps(raw: seq<KeyValue>, q: ScanRequest, s: State, e: Event)
    requires s.Valid(raw, q) && s.Enabled(raw, q, e)
    ensures s.Step(raw, q, e).Valid(raw, q)
  {
    hide Select, Seek, Less, Remaining, ScanRequest.Selects, ScanRequest.WellFormed, ScanRequest.RangeEmpty, Sorted, Agree, Answered;
    var s' := s.Step(raw, q, e);
    match e
    case HandOut =>
      var kv := s.entries[s.index];
      assert s.Pending() == [kv] + s'.Pending();
      forall r
        ensures !s'.Misses(raw, q, r)
      {
        assert !s.Misses(raw, q, r);
      }
    case Open(kvs, left, last) =>
      SourceOf(raw, q, s);
      ReceivedKeeps(raw, q, s, s.Source(raw, q), s.ResumeRequest(q), kvs, left, last);
    case Continue(kvs, left, last) =>
      forall kv | kv in raw && q.Selects(kv) && !s.Reached(kv)
        ensures kv in s.phase.rest
      {
        assert !s.Misses(raw, q, kv);
      }
      ReceivedKeeps(raw, q, s, s.phase.rest, s.phase.request, kvs, left, last);
    case Lose =>
      forall kv
        ensures !s'.Misses(raw, q, kv)
      {
        assert !s.Misses(raw, q, kv);
      }
    case Delete(gone) =>
      forall kv
        ensures !s'.Misses(raw, q, kv)
      {
        assert !s.Misses(raw, q, kv);
      }
  }

  lemma {:induction false} RunKeeps(raw: seq<KeyValue>, q: ScanRequest, s: State, run: seq<Event>)
    requires s.Valid(raw, q) && IsRun(raw, q, s, run)
    ensures After(raw, q, s, run).Valid(raw, q)
    decreases |run|
  {
    hide State.Valid, State.Enabled, State.Step;
    if run != [] {
      StepKeeps(raw, q, s, run[0]);
      RunKeeps(raw, q, s.Step(raw, q, run[0]), run[1..]);
    }
  }

  /** Every run of a scan with deletions, however contexts get lost and whether or not the
      partition has a gap: only matching records are handed out and deleted, and once the scan
      is finished with all it handed out deleted, exactly the unmatched records are left. */
  lemma EveryRun(raw: seq<KeyValue>, q: ScanRequest, run: seq<Event>)
    requires Sorted(raw) && q.WellFormed() && IsRun(raw, q, INITIAL, run)
    ensures var s := After(raw, q, INITIAL, run);
            && (forall kv <- s.emitted :: kv in raw && q.Selects(kv))
            && (forall kv <- s.deleted :: kv in raw && q.Selects(kv))
            && (s.phase.Finished? && s.index >= |s.entries| ==>
                  forall kv <- raw :: q.Selects(kv) ==> kv in s.emitted)
            && (s.phase.Finished? && s.index >= |s.entries| && (forall kv <- s.emitted :: kv in s.deleted) ==>
                  forall kv :: kv in Remaining(raw, s.deleted) <==> kv in raw && !q.Selects(kv))
  {
    hide IsRun, After, Sorted, ScanRequest.WellFormed, ScanRequest.Selects, Remaining;
    InitialValid(raw, q);
    RunKeeps(raw, q, INITIAL, run);
    var s := After(raw, q, INITIAL, run);
    RemainingMembers(raw, s.deleted);
    if s.phase.Finished? && s.index >= |s.entries| {
      forall kv | kv in raw && q.Selects(kv)
        ensures kv in s.emitted
      {
        assert !s.Misses(raw, q, kv);
      }
    }
  }

  /** For the scan a range deletion opens: once it is done nothing wanted is left in the
      partition, and nothing else is gone, at no time. */
  lemma DeletionLeavesUnwanted(
    job: Job, hashKey: ByteString, requested: Range, filter: Filter, alive: KeyValue -> bool, begin: ByteString, end: ByteString,
    run: seq<Event>)
    requires OpenedFor(job, hashKey, requested, filter, alive, begin, end)
    requires IsRun(job.partitions[job.slice[0]], job.query, INITIAL, run)
    ensures var raw := job.partitions[job.slice[0]];
            var s := After(raw, job.query, INITIAL, run);
            var left := Remaining(raw, s.deleted);
            && (forall kv <- raw :: kv in left || Asked(raw, hashKey, requested, filter, alive, kv))
            && (s.phase.Finished? && s.index >= |s.entries| && (forall kv <- s.emitted :: kv in s.deleted) ==>
                  forall key :: !Wanted(left, hashKey, requested, filter, alive, key))
  {
    hide IsRun, After, Sorted, ScanRequest.WellFormed, ScanRequest.Selects, Remaining, OpenedFor, Wanted;
    OpenedSetup(job, hashKey, requested, filter, alive, begin, end);
    var raw := job.partitions[job.slice[0]];
    var s := After(raw, job.query, INITIAL, run);
    var left := Remaining(raw, s.deleted);
    EveryRun(raw, job.query, run);
    RemainingMembers(raw, s.deleted);
    forall kv | kv in raw && kv !in left
      ensures Asked(raw, hashKey, requested, filter, alive, kv)
    {
      SelectedIsWanted(job, hashKey, requested, filter, alive, begin, end, kv);
    }
    if s.phase.Finished? && s.index >= |s.entries| && (forall kv <- s.emitted :: kv in s.deleted) {
      forall key | Wanted(left, hashKey, requested, filter, alive, key)
        ensures false
      {
        var kv := LeftIsSelected(job, hashKey, requested, filter, alive, begin, end, left, key);
      }
    }
  }

  /** The record is one the deletion asks for. */
  ghost predicate Asked(
    raw: seq<KeyValue>, hashKey: ByteString, requested: Range, filter: Filter, alive: KeyValue -> bool, kv: KeyValue)
  {
    kv.key == Encode(hashKey, SortKeyOf(kv)) && Wanted(raw, hashKey, requested, filter, alive, SortKeyOf(kv))
  }

  lemma OpenedSetup(
    job: Job, hashKey: ByteString, requested: Range, filter: Filter, alive: KeyValue -> bool, begin: ByteString, end: ByteString)
    requires OpenedFor(job, hashKey, requested, filter, alive, begin, end)
    ensures job.Valid() && |job.slice| == 1 && Sorted(job.partitions[job.slice[0]]) && job.query.WellFormed()
  {
    hide Sorted, ScanRequest.WellFormed, Effective, Encode, Query, Range.Scannable;
    assert job.partitions[job.slice[0]] in job.partitions;
  }

  /** A record with a wanted key that is still there is one the scan selects. */
  lemma LeftIsSelected(
    job: Job, hashKey: ByteString, requested: Range, filter: Filter, alive: KeyValue -> bool, begin: ByteString, end: ByteString,
    left: seq<KeyValue>, key: ByteString) returns (kv: KeyValue)
    requires OpenedFor(job, hashKey, requested, filter, alive, begin, end)
    requires Wanted(left, hashKey, requested, filter, alive, key)
    ensures kv in left && job.query.Selects(kv)
  {
    hide Encode, Restore, Effective, Query, Passes, Range.Scannable, Range.Holds, ScanRequest.Selects, Sorted, ScanRequest.WellFormed;
    kv :| kv in left && kv.key == Encode(hashKey, key) && alive(kv);
    SortKeyOfEncoded(hashKey, key, kv);
    OpenedPreserves(requested, hashKey, filter, begin, end, key);
    QuerySelects(Effective(requested, hashKey, filter), filter, alive, kv);
  }
}
