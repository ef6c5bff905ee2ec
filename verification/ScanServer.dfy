/** The replica server as a scanner meets it: sorted partitions, a cache of scan
    contexts that may vanish, and RPCs that may fail before or after taking effect. */
module ScanServer {

  import opened Bytes

  datatype KeyValue = KeyValue(key: ByteString, value: ByteString)

  /** What a get_scanner request asks of one partition. `accepts` stands for the filters,
      the expiry test and the partition-hash test the server applies to each record; `floor`
      is the start key derived from a prefix filter on the hash key (empty without one). */
  datatype ScanRequest = ScanRequest(
    start: ByteString, startInclusive: bool,
    stop: ByteString, stopInclusive: bool,
    floor: ByteString, accepts: KeyValue -> bool)
  {
    predicate Selects(kv: KeyValue)
    {
      && accepts(kv)
      && (Less(start, kv.key) || (startInclusive && start == kv.key))
      && (Less(kv.key, stop) || (stopInclusive && stop == kv.key))
    }

    /** Every accepted record lies at or above the floor. */
    ghost predicate WellFormed()
    {
      forall kv: KeyValue :: accepts(kv) ==> AtMost(floor, kv.key)
    }

    /** The request that continues this one behind `key`. */
    function After(key: ByteString): ScanRequest
    {
      this.(start := key, startInclusive := false)
    }

    /** Where the server starts reading: the start key, raised to the floor. */
    function Low(): ByteString
    {
      if Less(start, floor) then floor else start
    }

    predicate LowInclusive()
    {
      Less(start, floor) || startInclusive
    }

    /** The server's test for an empty key range. */
    predicate RangeEmpty()
    {
      Less(stop, Low()) || (Low() == stop && !(LowInclusive() && stopInclusive))
    }

    /** Whether the server's iterator passes over the record on its way to the first one. */
    predicate PassesOver(kv: KeyValue)
    {
      Less(kv.key, Low()) || (kv.key == Low() && !LowInclusive())
    }
  }

  ghost predicate Sorted(s: seq<KeyValue>)
  {
    forall i, j :: 0 <= i < j < |s| ==> Less(s[i].key, s[j].key)
  }

  /** The records of `s` the request selects, in order. */
  function Select(s: seq<KeyValue>, q: ScanRequest): seq<KeyValue>
  {
    if s == [] then []
    else if q.Selects(s[0]) then [s[0]] + Select(s[1..], q)
    else Select(s[1..], q)
  }

  lemma {:induction false} SelectConcat(s: seq<KeyValue>, t: seq<KeyValue>, q: ScanRequest)
    ensures Select(s + t, q) == Select(s, q) + Select(t, q)
  {
    if s == [] {
      assert s + t == t;
    } else {
      assert (s + t)[1..] == s[1..] + t;
      SelectConcat(s[1..], t, q);
    }
  }

  lemma {:induction false} SelectMembers(s: seq<KeyValue>, q: ScanRequest)
    ensures forall kv <- Select(s, q) :: kv in s && q.Selects(kv)
  {
    if s != [] {
      SelectMembers(s[1..], q);
    }
  }

  lemma {:induction false} SelectEmptyRange(s: seq<KeyValue>, q: ScanRequest)
    requires q.WellFormed() && q.RangeEmpty()
    ensures Select(s, q) == []
  {
    if s != [] {
      SelectEmptyRange(s[1..], q);
      var k := s[0].key;
      if q.Selects(s[0]) {
        var e := if Less(q.start, q.floor) then q.floor else q.start;
        assert AtMost(e, k) && AtMost(k, q.stop);
        AtMostTransitive(e, k, q.stop);
        if Less(q.stop, e) {
          AtMostTransitive(q.stop, e, q.stop);
          LessIrreflexive(q.stop);
        } else if k != e {
          AtMostTransitive(e, k, q.stop);
          LessIrreflexive(e);
        }
        assert false;
      }
    }
  }

  /** Above `key` a request and its continuation behind `key` select the same records. */
  lemma {:induction false} SelectAbove(s: seq<KeyValue>, q: ScanRequest, kv: KeyValue)
    requires q.Selects(kv)
    requires forall r <- s :: Less(kv.key, r.key)
    ensures Select(s, q.After(kv.key)) == Select(s, q)
  {
    if s != [] {
      assert s[0] in s;
      AtMostTransitive(q.start, kv.key, s[0].key);
      SelectAbove(s[1..], q, kv);
    }
  }

  /** Resuming behind the last delivered record yields exactly the undelivered rest. */
  lemma {:induction false} ResumeYieldsRest(
    s: seq<KeyValue>, q: ScanRequest, delivered: seq<KeyValue>, rest: seq<KeyValue>)
    requires Sorted(s) && delivered != []
    requires Select(s, q) == delivered + rest
    ensures Select(s, q.After(delivered[|delivered| - 1].key)) == rest
  {
    var h, t, last := s[0], s[1..], delivered[|delivered| - 1];
    assert last == Select(s, q)[|delivered| - 1];
    SelectMembers(t, q);
    LessIrreflexive(last.key);
    if q.Selects(h) {
      assert delivered + rest == [delivered[0]] + (delivered[1..] + rest);
      assert Select(t, q) == (delivered + rest)[1..] == delivered[1..] + rest;
    }
    if q.Selects(h) && |delivered| == 1 {
      SelectAbove(t, q, h);
    } else {
      var d := if q.Selects(h) then delivered[1..] else delivered;
      assert last == d[|d| - 1] == Select(t, q)[|d| - 1];
      ResumeYieldsRest(t, q, d, rest);
      assert last in t;
      LessAsymmetric(h.key, last.key);
    }
  }

  /** The records from the first one the iterator stops at. */
  function Seek(s: seq<KeyValue>, q: ScanRequest): seq<KeyValue>
  {
    if s == [] || !q.PassesOver(s[0]) then s else Seek(s[1..], q)
  }

  ghost predicate Suffix(t: seq<KeyValue>, s: seq<KeyValue>)
  {
    |t| <= |s| && t == s[|s| - |t|..]
  }

  lemma SuffixTransitive(u: seq<KeyValue>, t: seq<KeyValue>, s: seq<KeyValue>)
    requires Suffix(u, t) && Suffix(t, s)
    ensures Suffix(u, s)
  {
  }

  lemma PassedOverUnselected(q: ScanRequest, kv: KeyValue)
    requires q.WellFormed() && q.PassesOver(kv)
    ensures !q.Selects(kv)
  {
    if Less(kv.key, q.Low()) {
      LessAsymmetric(kv.key, q.Low());
    }
    LessIrreflexive(kv.key);
  }

  /** Seeking loses no selected record, and stops at a record it may not pass over. */
  lemma {:induction false} SeekSelects(s: seq<KeyValue>, q: ScanRequest)
    requires q.WellFormed()
    ensures Suffix(Seek(s, q), s)
    ensures Select(Seek(s, q), q) == Select(s, q)
    ensures Seek(s, q) != [] ==> !q.PassesOver(Seek(s, q)[0])
    ensures forall i :: 0 <= i < |s| - |Seek(s, q)| ==> q.PassesOver(s[i])
  {
    if s != [] && q.PassesOver(s[0]) {
      SeekSelects(s[1..], q);
      PassedOverUnselected(q, s[0]);
    }
  }

  datatype ScanContext = ScanContext(partition: nat, request: ScanRequest, rest: seq<KeyValue>)

  const OK := 0
  const NOT_FOUND := 1
  const COMPLETED := -1

  datatype ScanReply = ScanReply(error: int, kvs: seq<KeyValue>, contextId: int)

  datatype RpcResult = RpcFailed | Replied(reply: ScanReply)

  /** What can go wrong with an RPC: the request or its reply is lost, or the server replies
      with an error. A missing context is no fault. */
  datatype Fault = Lost | Refused(code: int)

  function FaultsOf(r: RpcResult): seq<Fault>
  {
    if r.RpcFailed? then [Lost]
    else if r.reply.error == OK || r.reply.error == NOT_FOUND then []
    else [Refused(r.reply.error)]
  }

  /** Values a context id never takes: the client's status codes, and the id 0 that the
      client sends when it has lost its context. */
  predicate Reserved(id: int)
  {
    -4 <= id <= 0
  }

  /** Ids are taken in ascending order, without the reserved ones. */
  function NextId(id: int): (next: int)
    ensures id < next && (!Reserved(id) ==> !Reserved(next))
  {
    if id + 1 == -4 then 1 else id + 1
  }

  /** A batch taken from the front of `source` with `rest` left behind. */
  ghost predicate Batch(source: seq<KeyValue>, q: ScanRequest, kvs: seq<KeyValue>, rest: seq<KeyValue>)
  {
    && |rest| <= |source|
    && rest == source[|source| - |rest|..]
    && kvs == Select(source[..|source| - |rest|], q)
  }

  /** A batch after which the server keeps a context: it has read at least one record, none
      of them at or beyond the stop key, and there are records left to read. */
  ghost predicate PartialBatch(
    source: seq<KeyValue>, q: ScanRequest, dense: bool, kvs: seq<KeyValue>, rest: seq<KeyValue>)
  {
    && Batch(source, q, kvs, rest)
    && 0 < |rest| < |source|
    && Less(source[|source| - |rest| - 1].key, q.stop)
    && (dense ==> kvs != [])
  }

  lemma BatchConserves(source: seq<KeyValue>, q: ScanRequest, kvs: seq<KeyValue>, rest: seq<KeyValue>)
    requires Batch(source, q, kvs, rest)
    ensures kvs + Select(rest, q) == Select(source, q)
  {
    var j := |source| - |rest|;
    assert source == source[..j] + source[j..];
    SelectConcat(source[..j], source[j..], q);
  }

  lemma PartialBatchBelowStop(
    source: seq<KeyValue>, q: ScanRequest, dense: bool, kvs: seq<KeyValue>, rest: seq<KeyValue>)
    requires Sorted(source) && PartialBatch(source, q, dense, kvs, rest)
    ensures forall kv <- kvs :: Less(kv.key, q.stop)
  {
    var j := |source| - |rest|;
    SelectMembers(source[..j], q);
    forall kv | kv in kvs
      ensures Less(kv.key, q.stop)
    {
      var i :| 0 <= i < j && source[i] == kv;
      if i < j - 1 {
        LessTransitive(kv.key, source[j - 1].key, q.stop);
      }
    }
  }

  lemma SeekSorted(s: seq<KeyValue>, q: ScanRequest)
    requires Sorted(s) && q.WellFormed()
    ensures Sorted(Seek(s, q)) && Suffix(Seek(s, q), s)
  {
    SeekSelects(s, q);
  }

  /** The changing part of the server: its context cache. */
  datatype Cache = Cache(
    contexts: map<int, ScanContext>,
    nextId: int,
    /** How many more times contexts will be dropped; any number, but finite. */
    lossesLeft: nat)
  {
    ghost predicate Valid(partitions: seq<seq<KeyValue>>)
    {
      && !Reserved(nextId)
      && (forall id <- contexts ::
            && !Reserved(id) && id < nextId
            && var c := contexts[id];
               c.partition < |partitions| && 0 < |c.rest| && Suffix(c.rest, partitions[c.partition]) && Sorted(c.rest))
    }

    predicate Holds(partition: nat, id: int)
    {
      id in contexts && contexts[id].partition == partition
    }

    /** Contexts that survive into `later` are unchanged there and ids are never reused. */
    ghost predicate Precedes(later: Cache)
    {
      && nextId <= later.nextId
      && later.lossesLeft <= lossesLeft
      && (forall id <- later.contexts ::
            if id < nextId then id in contexts && later.contexts[id] == contexts[id]
            else id !in contexts)
    }

    /** This cache holds what a successful read of `source` leaves there: nothing when the
        range is exhausted, else a context under the id `newId` with `rest` ahead of it. */
    ghost predicate Answers(
      partition: nat, q: ScanRequest, source: seq<KeyValue>, dense: bool,
      r: ScanReply, rest: seq<KeyValue>, newId: int)
    {
      if r.contextId == COMPLETED
      then Batch(source, q, r.kvs, rest) && Select(rest, q) == []
      else
        && PartialBatch(source, q, dense, r.kvs, rest)
        && r.contextId == newId && r.contextId in contexts
        && contexts[r.contextId] == ScanContext(partition, q, rest)
    }
  }

  lemma PrecedesItself(cache: Cache, partitions: seq<seq<KeyValue>>)
    requires cache.Valid(partitions)
    ensures cache.Precedes(cache)
  {
  }

  /** The cache with one more context. */
  function Stored(cache: Cache, c: ScanContext): Cache
  {
    Cache(cache.contexts[cache.nextId := c], NextId(cache.nextId), cache.lossesLeft)
  }

  lemma StoredMoves(cache: Cache, partitions: seq<seq<KeyValue>>, c: ScanContext)
    requires cache.Valid(partitions)
    requires c.partition < |partitions| && c.rest != [] && Suffix(c.rest, partitions[c.partition]) && Sorted(c.rest)
    ensures !Reserved(cache.nextId)
    ensures Stored(cache, c).Valid(partitions) && cache.Precedes(Stored(cache, c))
  {
    hide Suffix, Sorted;
  }

  lemma WholeBatch(
    cache: Cache, partition: nat, q: ScanRequest, source: seq<KeyValue>, dense: bool, r: ScanReply, newId: int)
    requires r == ScanReply(OK, Select(source, q), COMPLETED)
    ensures cache.Answers(partition, q, source, dense, r, [], newId)
  {
    assert source[..|source|] == source;
  }

  /** The reply that leaves the source from `m` on to a context. */
  lemma PartAnswers(cache: Cache, partition: nat, q: ScanRequest, source: seq<KeyValue>, dense: bool, r: ScanReply, m: nat)
    requires 0 < m < |source| && Less(source[m - 1].key, q.stop)
    requires dense ==> r.kvs != []
    requires r.kvs == Select(source[..m], q) && r.contextId != COMPLETED
    requires r.contextId in cache.contexts && cache.contexts[r.contextId] == ScanContext(partition, q, source[m..])
    ensures cache.Answers(partition, q, source, dense, r, source[m..], r.contextId)
  {
    hide Select, Less;
  }

  lemma SortedSuffix(s: seq<KeyValue>, n: nat)
    requires Sorted(s) && n <= |s|
    ensures Sorted(s[n..])
  {
  }

  /** What is left of a sorted suffix is one. */
  lemma RestKept(source: seq<KeyValue>, s: seq<KeyValue>, j: nat)
    requires Sorted(source) && Suffix(source, s) && j <= |source|
    ensures Sorted(source[j..]) && Suffix(source[j..], s)
  {
    SortedSuffix(source, j);
    SuffixTransitive(source[j..], source, s);
  }

  class ReplicaServer {
    const partitions: seq<seq<KeyValue>>
    /** Whether a batch that leaves a context behind always carries a record. */
    const dense: bool
    var cache: Cache
    /** Everything that went wrong so far. */
    ghost var faults: seq<Fault>

    ghost predicate Valid()
      reads this
    {
      && (forall p <- partitions :: Sorted(p))
      && cache.Valid(partitions)
    }

    constructor (partitions: seq<seq<KeyValue>>, dense: bool, firstId: int, losses: nat)
      requires forall p <- partitions :: Sorted(p)
      requires !Reserved(firstId)
      ensures Valid() && cache == Cache(map[], firstId, losses) && faults == []
      ensures this.partitions == partitions && this.dense == dense
    {
      this.partitions, this.dense := partitions, dense;
      cache := Cache(map[], firstId, losses);
      faults := [];
    }

    /** Expiry, restart or a change of primary drops any set of contexts. */
    method Disturb()
      requires Valid()
      modifies this`cache
      ensures Valid() && old(cache).Precedes(cache) && cache.nextId == old(cache).nextId
      ensures cache == old(cache) || cache.lossesLeft < old(cache).lossesLeft
    {
      var happens: bool := *;
      if happens && cache.lossesLeft > 0 {
        var kept: set<int> := *;
        var contexts := map id | id in cache.contexts && id in kept :: cache.contexts[id];
        cache := Cache(contexts, cache.nextId, cache.lossesLeft - 1);
      }
    }

    /** Reads on from `source` as far as the server's limits allow, and keeps a context unless
        the range is exhausted. */
    method Read(partition: nat, q: ScanRequest, source: seq<KeyValue>) returns (r: ScanReply, ghost rest: seq<KeyValue>)
      requires Valid() && partition < |partitions|
      requires Sorted(source) && Suffix(source, partitions[partition])
      modifies this`cache
      ensures Valid() && old(cache).Precedes(cache) && cache.lossesLeft == old(cache).lossesLeft
      ensures r.error != NOT_FOUND
      ensures r.error == OK ==> cache.Answers(partition, q, source, dense, r, rest, old(cache).nextId)
    {
      hide Select, Less, Suffix, Sorted, Cache.Valid, Cache.Precedes, Cache.Answers;
      PrecedesItself(cache, partitions);
      var failed: bool := *;
      var code: int := *;
      if failed && code != OK && code != NOT_FOUND {
        return ScanReply(code, [], 0), [];
      }
      var j: int := *;
      var more: bool := *;
      if more && 0 < j < |source| && Less(source[j - 1].key, q.stop) && (dense ==> Select(source[..j], q) != []) {
        var id := cache.nextId;
        rest := source[j..];
        r := ScanReply(OK, Select(source[..j], q), id);
        RestKept(source, partitions[partition], j);
        StoredMoves(cache, partitions, ScanContext(partition, q, rest));
        cache := Cache(cache.contexts[id := ScanContext(partition, q, source[j..])],
                       NextId(id),
                       cache.lossesLeft);
        PartAnswers(cache, partition, q, source, dense, r, j);
      } else {
        rest := [];
        r := ScanReply(OK, Select(source, q), COMPLETED);
        WholeBatch(cache, partition, q, source, dense, r, cache.nextId);
      }
    }

    /** RPC_RRDB_RRDB_GET_SCANNER. Throttling and unsupported filters are refused first; an
        empty range is answered with the default context id 0. */
    method GetScanner(partition: nat, q: ScanRequest) returns (r: RpcResult, ghost rest: seq<KeyValue>)
      requires Valid() && partition < |partitions| && q.WellFormed()
      modifies this
      ensures Valid() && old(cache).Precedes(cache)
      ensures faults == old(faults) + FaultsOf(r)
      ensures r.Replied? ==> r.reply.error != NOT_FOUND
      ensures r.Replied? && r.reply.error == OK && q.RangeEmpty() ==> r.reply == ScanReply(OK, [], 0)
      ensures r.Replied? && r.reply.error == OK && !q.RangeEmpty() ==>
                cache.Answers(partition, q, Seek(partitions[partition], q), dense, r.reply, rest, old(cache).nextId)
    {
      rest := [];
      Disturb();
      var dropped: bool := *;
      if dropped {
        faults := faults + [Lost];
        return RpcFailed, [];
      }
      var refused: bool := *;
      var code: int := *;
      var reply := ScanReply(OK, [], 0);
      if refused && code != OK && code != NOT_FOUND {
        reply := ScanReply(code, [], 0);
      } else if !q.RangeEmpty() {
        SeekSorted(partitions[partition], q);
        reply, rest := Read(partition, q, Seek(partitions[partition], q));
      }
      var replyLost: bool := *;
      r := if replyLost then RpcFailed else Replied(reply);
      faults := faults + FaultsOf(r);
    }

    /** RPC_RRDB_RRDB_SCAN: takes the context out of the cache, reads on, puts it back under
        a new id. */
    method Scan(partition: nat, id: int) returns (r: RpcResult, ghost rest: seq<KeyValue>)
      requires Valid() && partition < |partitions|
      modifies this
      ensures Valid() && old(cache).Precedes(cache)
      ensures faults == old(faults) + FaultsOf(r)
      ensures r.Replied? && r.reply.error == NOT_FOUND ==>
                && !cache.Holds(partition, id)
                && (!old(cache).Holds(partition, id) || cache.lossesLeft < old(cache).lossesLeft)
      ensures r.Replied? && r.reply.error != NOT_FOUND ==> old(cache).Holds(partition, id)
      ensures r.Replied? && r.reply.error == OK ==>
                var c := old(cache).contexts[id];
                cache.Answers(partition, c.request, c.rest, dense, r.reply, rest, old(cache).nextId)
    {
      rest := [];
      Disturb();
      var dropped: bool := *;
      if dropped {
        faults := faults + [Lost];
        return RpcFailed, [];
      }
      var reply := ScanReply(NOT_FOUND, [], 0);
      if cache.Holds(partition, id) {
        var c := cache.contexts[id];
        cache := cache.(contexts := cache.contexts - {id});
        reply, rest := Read(partition, c.request, c.rest);
      }
      var replyLost: bool := *;
      r := if replyLost then RpcFailed else Replied(reply);
      faults := faults + FaultsOf(r);
    }

    /** RPC_RRDB_RRDB_CLEAR_SCANNER. */
    method ClearScanner(id: int) returns (ok: bool)
      requires Valid()
      modifies this
      ensures Valid() && old(cache).Precedes(cache)
      ensures ok ==> id !in cache.contexts
      ensures faults == if ok then old(faults) else old(faults) + [Lost]
    {
      Disturb();
      var reached: bool := *;
      if reached {
        cache := cache.(contexts := cache.contexts - {id});
      }
      ok := *;
      ok := ok && reached;
      if !ok {
        faults := faults + [Lost];
      }
    }
  }
}
