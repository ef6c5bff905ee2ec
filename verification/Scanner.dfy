/** The client-side scanner: walks its partitions from last to first, pulls batches through
    a server context and recovers from lost contexts, lost replies and failed RPCs. */
module Scanner {

  import opened Bytes
  import opened ScanServer
  import opened ScanProgress
  import KeyCodec

  datatype NextError =
    | UnknownErrorPending
    | RpcErrorPending
    | ScannerClosed
    | RpcError
    | DeadlineExceeded
    | ServerError(code: int)

  datatype NextResult =
    | Completed
    | Record(keys: KeyCodec.Restored, value: ByteString)
    | Failed(error: NextError)

  class PegasusScanner {
    const server: ReplicaServer
    const gpidSlice: seq<nat>
    const query: ScanRequest

    var gpidIndex: int
    var curGpid: nat
    var batchEntries: seq<KeyValue>
    var batchIndex: int
    var batchStatus: int
    var closed: bool

    /** History, explained at `Position`. */
    ghost var emitted: seq<KeyValue>
    ghost var delivered: seq<KeyValue>
    ghost var rest: seq<KeyValue>
    ghost var repeats: nat

    ghost function Task(): Job
    {
      Job(server.partitions, server.dense, gpidSlice, query)
    }

    ghost function Here(): Position
      reads this
    {
      Position(gpidIndex, curGpid, batchEntries, batchIndex, batchStatus, emitted, delivered, rest, repeats)
    }

    ghost predicate Valid()
      reads this, server
    {
      && server.Valid()
      && Delivers(Task(), emitted, repeats)
      && (!closed ==> Here().Valid(Task(), server.cache))
    }

    /** The last call failed, and that is still to be reported or for good. */
    predicate ErrorPending()
      reads this
    {
      batchStatus == BATCH_UNKNOWN_ERROR || batchStatus == BATCH_RPC_ERROR
    }

    /** RPCs that one call of `Next` can need. */
    ghost function Work(): nat
      reads this, server
    {
      Here().Work(Task(), server.cache)
    }

    constructor (server: ReplicaServer, gpidSlice: seq<nat>, query: ScanRequest)
      requires server.Valid() && query.WellFormed()
      requires forall i :: 0 <= i < |gpidSlice| ==> gpidSlice[i] < |server.partitions|
      ensures Valid() && !closed && !ErrorPending() && emitted == [] && repeats == 0
      ensures this.server == server && this.gpidSlice == gpidSlice && this.query == query
      ensures Task().Valid() && Work() == Cost(Task(), server.cache.lossesLeft)
    {
      this.server, this.gpidSlice, this.query := server, gpidSlice, query;
      gpidIndex, curGpid := |gpidSlice|, 0;
      batchEntries, batchIndex, batchStatus := [], -1, BATCH_SCAN_FINISHED;
      closed := false;
      emitted, delivered, rest, repeats := [], [], [], 0;
    }

    /** What a result says of the records handed out and of the end of the scan. */
    twostate predicate Outcome(r: NextResult)
      reads this
    {
      && old(repeats) <= repeats
      && (if r.Record? then
            && |emitted| == |old(emitted)| + 1 && old(emitted) <= emitted
            && var kv := emitted[|old(emitted)|];
               r == Record(KeyCodec.Restore(kv.key), kv.value)
          else emitted == old(emitted))
      && (r.Completed? ==> Here().AtEnd())
      && (r.Failed? || !ErrorPending())
      && (r.Failed? ==>
            match r.error
            case RpcError => batchStatus == BATCH_RPC_ERROR
            case DeadlineExceeded => batchStatus == BATCH_RPC_ERROR
            case ServerError(code) => code != OK && batchStatus == BATCH_UNKNOWN_ERROR
            case _ => true)
      && (query.RangeEmpty() && gpidSlice != [] ==> r.Failed?)
    }

    /** What each record handed out costs: RPCs still needed, or else a buffered entry. */
    twostate predicate Progress()
      reads this, server
    {
      || Work() < old(Work())
      || (Work() == old(Work()) && |Here().Pending()| < |old(Here()).Pending()|)
    }

    /** A scan under way fails only through its environment: by the deadline, by an RPC that got
        lost, or with the code of the server, one failure for each fault. */
    twostate predicate Blamed(r: NextResult)
      reads server
    {
      match r
      case Failed(RpcError) => server.faults == old(server.faults) + [Lost]
      case Failed(ServerError(code)) => server.faults == old(server.faults) + [Refused(code)]
      case Failed(DeadlineExceeded) => server.faults == old(server.faults)
      case Failed(_) => false
      case _ => server.faults == old(server.faults)
    }

    /** Grabs the next record. `budget` is the number of RPCs that fit before the deadline of
        the call's context. */
    method Next(budget: nat) returns (r: NextResult)
      requires Valid()
      modifies this, server
      ensures Valid() && closed == old(closed)
      ensures Outcome(r)
      // A server error is final; an RPC error is reported once more, then the scan goes on.
      ensures r == Failed(UnknownErrorPending) <==> old(batchStatus) == BATCH_UNKNOWN_ERROR
      ensures r == Failed(RpcErrorPending) <==> old(batchStatus) == BATCH_RPC_ERROR
      ensures old(batchStatus) == BATCH_UNKNOWN_ERROR ==> batchStatus == old(batchStatus)
      ensures old(batchStatus) == BATCH_RPC_ERROR ==> batchStatus == BATCH_SCANNING
      // With no error pending, a closed scanner says so and an open one fails for a reason only.
      ensures r == Failed(ScannerClosed) <==> closed && !old(ErrorPending())
      ensures !closed && !old(ErrorPending()) ==> Blamed(r)
      ensures closed || old(ErrorPending()) ==> server.cache == old(server.cache) && server.faults == old(server.faults)
      // Completed: everything expected has been handed out, and nothing else exactly if no
      // restart repeated records.
      ensures r.Completed? ==>
                && !closed
                && (forall kv <- Task().Expected() :: kv in emitted)
                && |emitted| == |Task().Expected()| + repeats
                && (emitted == Task().Expected() <==> repeats == 0)
                && (emitted == Task().Expected() || (!server.dense && Task().Gappy()))
      // Completed is stable until Close; after Close nothing more is handed out.
      ensures !closed && old(Here()).AtEnd() ==> r.Completed?
      ensures closed ==> r.Failed?
      // One call needs a bounded number of RPCs, and a scan a bounded number of calls.
      ensures r.Record? ==> Progress()
      ensures !closed && !query.RangeEmpty() && r == Failed(DeadlineExceeded) ==> budget < old(Work())
    {
      hide Position.Valid, Position.Work, Position.Pending, Delivers, Cache.Valid, Cache.Precedes, Cache.Answers, Select, Seek, Sorted, Job.Gappy;
      if batchStatus == BATCH_UNKNOWN_ERROR {
        return Failed(UnknownErrorPending);
      }
      if batchStatus == BATCH_RPC_ERROR {
        batchStatus := BATCH_SCANNING;
        if !closed {
          ValidBounds(Task(), server.cache, old(Here()));
          PrecedesItself(server.cache, server.partitions);
          StatusKeeps(Task(), server.cache, old(Here()), server.cache, BATCH_SCANNING);
        }
        return Failed(RpcErrorPending);
      }
      if closed {
        return Failed(ScannerClosed);
      }
      r := DoNext(budget);
      if r.Completed? {
        EndOfScan(Task(), server.cache, Here());
      }
    }

    method DoNext(budget: nat) returns (r: NextResult)
      requires Valid() && !closed && !ErrorPending()
      modifies this, server
      ensures Valid() && !closed
      ensures Outcome(r) && Blamed(r)
      ensures old(Here()).AtEnd() ==> r.Completed?
      ensures r.Record? ==> Progress()
      ensures !query.RangeEmpty() && r == Failed(DeadlineExceeded) ==> budget < old(Work())
      decreases budget, 1
    {
      hide Position.Valid, Position.Work, Position.Pending, Delivers, Cache.Valid, Cache.Precedes, Cache.Answers, Select, Seek, Sorted, Job.Gappy;
      ghost var p := Here();
      ValidBounds(Task(), server.cache, p);
      batchIndex := batchIndex + 1;
      while batchIndex >= |batchEntries|
        invariant !closed && server.Valid() && p.Valid(Task(), server.cache) && p.Work(Task(), server.cache) == old(Work())
        invariant Here() == p.(index := p.index + 1) && -1 <= p.index
        invariant emitted == old(emitted) && repeats == old(repeats) && server.faults == old(server.faults)
        invariant old(Here()).AtEnd() ==> p.AtEnd()
        invariant p == old(Here()) || p.entries == []
        decreases gpidIndex
      {
        AdvanceKeeps(Task(), server.cache, p);
        ValidBounds(Task(), server.cache, Here());
        ValidDelivers(Task(), server.cache, Here());
        if batchStatus == BATCH_SCAN_FINISHED {
          if gpidIndex <= 0 {
            EndOfScan(Task(), server.cache, Here());
            return Completed;
          }
          TurnToNextPartition();
          p := Here();
          assert -1 <= p.index;
        } else if batchStatus == BATCH_EMPTY {
          r := StartScanPartition(budget);
          return;
        } else {
          r := NextBatch(budget);
          return;
        }
        batchIndex := batchIndex + 1;
      }
      r := HandOut(p);
    }

    /** Hands out the entry the index has just reached. */
    method HandOut(ghost p: Position) returns (r: NextResult)
      requires server.Valid() && !closed && p.Valid(Task(), server.cache)
      requires Here() == p.(index := p.index + 1) && 0 <= batchIndex < |batchEntries| && !ErrorPending()
      modifies this`emitted, this`delivered
      ensures Valid() && Outcome(r) && r.Record?
      ensures Work() == p.Work(Task(), server.cache) && |Here().Pending()| < |p.Pending()|
    {
      hide Position.Valid, Position.Work, Position.Pending, Delivers, Cache.Valid, Select, Sorted;
      var kv := batchEntries[batchIndex];
      HandOutKeeps(Task(), server.cache, p);
      if query.RangeEmpty() {
        EmptyRangeHandsOutNothing(Task(), server.cache, p);
      }
      emitted, delivered := emitted + [kv], delivered + [kv];
      ValidDelivers(Task(), server.cache, Here());
      r := Record(KeyCodec.Restore(kv.key), kv.value);
    }

    method TurnToNextPartition()
      requires Valid() && !closed && gpidIndex > 0
      requires batchStatus == BATCH_SCAN_FINISHED && batchIndex + 1 >= |batchEntries|
      modifies this
      ensures Valid() && !closed && Work() == old(Work())
      ensures Here() == old(Here()).NextPartition(Task())
    {
      hide Position.Valid, Position.Work, Delivers, Cache.Valid, Select, Sorted;
      ValidBounds(Task(), server.cache, Here());
      NextPartitionKeeps(Task(), server.cache, Here());
      gpidIndex := gpidIndex - 1;
      curGpid := gpidSlice[gpidIndex];
      BatchClear();
      delivered, rest := [], Task().Matching(curGpid);
      ValidDelivers(Task(), server.cache, Here());
    }

    method BatchClear()
      modifies this`batchEntries, this`batchIndex, this`batchStatus
      ensures batchEntries == [] && batchIndex == -1 && batchStatus == BATCH_EMPTY
    {
      batchEntries, batchIndex, batchStatus := [], -1, BATCH_EMPTY;
    }

    /** Notes that an RPC failed; it may be tried again. */
    method FailRpc(ghost before: Cache)
      requires !closed && gpidIndex < |gpidSlice| && batchStatus != BATCH_SCAN_FINISHED
      requires Here().Valid(Task(), before) && server.Valid() && before.Precedes(server.cache)
      modifies this`batchStatus
      ensures Valid() && batchStatus == BATCH_RPC_ERROR
    {
      hide Position.Valid, Delivers, Cache.Valid, Cache.Precedes, Sorted;
      StatusKeeps(Task(), before, Here(), server.cache, BATCH_RPC_ERROR);
      batchStatus := BATCH_RPC_ERROR;
    }

    method StartScanPartition(budget: nat) returns (r: NextResult)
      requires Valid() && !closed && gpidIndex < |gpidSlice|
      requires batchStatus == BATCH_EMPTY && batchIndex + 1 >= |batchEntries|
      modifies this, server
      ensures Valid() && !closed
      ensures Outcome(r) && Blamed(r)
      ensures r.Record? ==> Work() < old(Work())
      ensures !query.RangeEmpty() && r == Failed(DeadlineExceeded) ==> budget < old(Work())
      decreases budget, 0
    {
      hide Position.Valid, Position.Work, Position.Pending, Delivers, Cache.Valid, Cache.Precedes, Cache.Answers, Select, Seek, Sorted, Job.Gappy;
      hide ScanRequest.RangeEmpty, ScanRequest.WellFormed, Position.AtEnd, Job.Valid, KeyCodec.Restore;
      ghost var p := Here();
      ValidBounds(Task(), server.cache, p);
      if budget == 0 {
        PrecedesItself(server.cache, server.partitions);
        FailRpc(server.cache);
        return Failed(DeadlineExceeded);
      }
      var request := if |batchEntries| == 0 then query else query.After(batchEntries[|batchEntries| - 1].key);
      ResumeWellFormed(Task(), server.cache, p);
      var response, left := server.GetScanner(curGpid, request);
      if response.RpcFailed? {
        FailRpc(old(server.cache));
        return Failed(RpcError);
      }
      var code := OnRecvScanResponse(response.reply);
      if code != OK {
        StatusKeeps(Task(), old(server.cache), p, server.cache, BATCH_UNKNOWN_ERROR);
        return Failed(ServerError(code));
      }
      ResumePoint(Task(), old(server.cache), p);
      RecordOpened(p, old(server.cache), response.reply, left);
      r := DoNext(budget - 1);
    }

    /** Brings the history up to date once the reply to a request for a new context is stored. */
    ghost method RecordOpened(p: Position, before: Cache, r: ScanReply, left: seq<KeyValue>)
      requires p.Valid(Task(), before) && p.gpidIndex < |gpidSlice| && p.curGpid < |server.partitions|
      requires p.status == BATCH_EMPTY && p.index + 1 >= |p.entries|
      requires server.Valid() && before.Precedes(server.cache) && r.error == OK && !closed
      requires query.RangeEmpty() ==> r == ScanReply(OK, [], 0)
      requires !query.RangeEmpty() ==>
                 server.cache.Answers(p.curGpid, p.ResumeRequest(query), p.Source(Task()), server.dense, r, left, before.nextId)
      requires Here() == p.(entries := r.kvs, index := -1, status := r.contextId)
      modifies this`delivered, this`repeats, this`rest
      ensures Valid() && repeats >= p.repeats && !ErrorPending()
      ensures !query.RangeEmpty() ==> Work() < p.Work(Task(), before)
    {
      hide Position.Valid, Position.Work, Delivers, Cache.Valid, Cache.Precedes, Cache.Answers, Select, Seek, Sorted, Job.Gappy, ScanRequest.RangeEmpty;
      delivered, repeats := if p.entries == [] then [] else delivered, repeats + if p.entries == [] then |delivered| else 0;
      rest := if query.RangeEmpty() then [] else Select(left, p.ResumeRequest(query));
      OpenedPosition(p, before, r, left);
      if !query.RangeEmpty() {
        AnswerStatus(p.curGpid, p.ResumeRequest(query), p.Source(Task()), before, r, left);
      }
    }

    /** A successful reply never carries one of the error statuses. */
    lemma AnswerStatus(partition: nat, q: ScanRequest, source: seq<KeyValue>, before: Cache, r: ScanReply, left: seq<KeyValue>)
      requires server.cache.Answers(partition, q, source, server.dense, r, left, before.nextId)
      requires server.Valid()
      ensures r.contextId != BATCH_RPC_ERROR && r.contextId != BATCH_UNKNOWN_ERROR
    {
    }

    /** The reply to a request for a new context, received, keeps the scan in order. */
    lemma OpenedPosition(p: Position, before: Cache, r: ScanReply, left: seq<KeyValue>)
      requires p.Valid(Task(), before) && p.gpidIndex < |gpidSlice| && p.curGpid < |server.partitions|
      requires p.status == BATCH_EMPTY && p.index + 1 >= |p.entries|
      requires server.Valid() && before.Precedes(server.cache) && r.error == OK
      requires query.RangeEmpty() ==> r == ScanReply(OK, [], 0)
      requires !query.RangeEmpty() ==>
                 server.cache.Answers(p.curGpid, p.ResumeRequest(query), p.Source(Task()), server.dense, r, left, before.nextId)
      requires Here() == p.Opened(r, if query.RangeEmpty() then [] else Select(left, p.ResumeRequest(query)))
      ensures Here().Valid(Task(), server.cache) && Delivers(Task(), emitted, repeats)
      ensures !query.RangeEmpty() ==> Work() < p.Work(Task(), before)
    {
      hide Position.Valid, Position.Work, Position.Pending, Delivers, Cache.Valid, Cache.Precedes, Cache.Answers, Select, Seek, Sorted, Job.Gappy;
      if query.RangeEmpty() {
        OpenedEmptyRangeKeeps(Task(), before, p, server.cache);
      } else {
        OpenedKeeps(Task(), before, p, server.cache, r, left);
        OpenedWork(Task(), before, p, server.cache, r, left);
      }
      ValidDelivers(Task(), server.cache, Here());
    }

    method NextBatch(budget: nat) returns (r: NextResult)
      requires Valid() && !closed && gpidIndex < |gpidSlice|
      requires batchStatus != BATCH_EMPTY && batchStatus != BATCH_SCAN_FINISHED && batchIndex + 1 >= |batchEntries|
      modifies this, server
      ensures Valid() && !closed
      ensures Outcome(r) && Blamed(r)
      ensures r.Record? ==> Work() < old(Work())
      ensures !query.RangeEmpty() && r == Failed(DeadlineExceeded) ==> budget < old(Work())
      decreases budget, 0
    {
      hide Position.Valid, Position.Work, Position.Pending, Delivers, Cache.Valid, Cache.Precedes, Cache.Answers, Select, Seek, Sorted, Job.Gappy;
      hide ScanRequest.RangeEmpty, ScanRequest.WellFormed, Position.AtEnd, Job.Valid, KeyCodec.Restore;
      ghost var p := Here();
      ValidBounds(Task(), server.cache, p);
      if budget == 0 {
        PrecedesItself(server.cache, server.partitions);
        FailRpc(server.cache);
        return Failed(DeadlineExceeded);
      }
      var response, left := server.Scan(curGpid, batchStatus);
      if response.RpcFailed? {
        FailRpc(old(server.cache));
        return Failed(RpcError);
      }
      var code := OnRecvScanResponse(response.reply);
      if code != OK {
        StatusKeeps(Task(), old(server.cache), p, server.cache, BATCH_UNKNOWN_ERROR);
        return Failed(ServerError(code));
      }
      RecordContinued(p, old(server.cache), response.reply, left);
      r := DoNext(budget - 1);
    }

    /** Brings the history up to date once the reply to a continued scan is stored. */
    ghost method RecordContinued(p: Position, before: Cache, r: ScanReply, left: seq<KeyValue>)
      requires p.Valid(Task(), before) && p.gpidIndex < |gpidSlice|
      requires p.status != BATCH_EMPTY && p.status != BATCH_SCAN_FINISHED && p.index + 1 >= |p.entries|
      requires server.Valid() && before.Precedes(server.cache) && !closed
      requires r.error == NOT_FOUND ==>
                 && (!before.Holds(p.curGpid, p.status) || server.cache.lossesLeft < before.lossesLeft)
                 && Here() == p.(status := BATCH_EMPTY)
      requires r.error != NOT_FOUND ==>
                 && r.error == OK && before.Holds(p.curGpid, p.status)
                 && Here() == p.(entries := r.kvs, index := -1, status := r.contextId)
                 && var c := before.contexts[p.status];
                    server.cache.Answers(p.curGpid, c.request, c.rest, server.dense, r, left, before.nextId)
      modifies this`rest
      ensures Valid() && Work() < p.Work(Task(), before) && !ErrorPending()
    {
      hide Position.Valid, Position.Work, Delivers, Cache.Valid, Cache.Precedes, Cache.Answers, Select, Seek, Sorted, Job.Gappy, ScanRequest.RangeEmpty;
      if r.error == NOT_FOUND {
        StatusKeeps(Task(), before, p, server.cache, BATCH_EMPTY);
        MissingContextWork(Task(), before, p, server.cache);
      } else {
        rest := Select(left, before.contexts[p.status].request);
        ContinuedKeeps(Task(), before, p, server.cache, r, left);
        ContinuedWork(Task(), before, p, server.cache, r, left);
        var c := before.contexts[p.status];
        AnswerStatus(p.curGpid, c.request, c.rest, before, r, left);
      }
      ValidDelivers(Task(), server.cache, Here());
    }

    /** Stores a reply; a context reported missing keeps the buffer and asks for a new one. */
    method OnRecvScanResponse(reply: ScanReply) returns (code: int)
      modifies this`batchEntries, this`batchIndex, this`batchStatus
      ensures code == if reply.error == NOT_FOUND then OK else reply.error
      ensures reply.error == OK ==>
                batchEntries == reply.kvs && batchIndex == -1 && batchStatus == reply.contextId
      ensures reply.error != OK ==>
                && batchEntries == old(batchEntries) && batchIndex == old(batchIndex)
                && batchStatus == if reply.error == NOT_FOUND then BATCH_EMPTY else BATCH_UNKNOWN_ERROR
    {
      code := OK;
      if reply.error == OK {
        batchEntries, batchIndex, batchStatus := reply.kvs, -1, reply.contextId;
      } else if reply.error == NOT_FOUND {
        batchStatus := BATCH_EMPTY;
      } else {
        batchStatus := BATCH_UNKNOWN_ERROR;
        code := reply.error;
      }
    }

    method Close() returns (ok: bool)
      requires Valid()
      modifies this, server
      ensures Valid() && closed && gpidIndex == 0
      ensures emitted == old(emitted) && repeats == old(repeats)
      // A live context with an id from 0 on is dropped at the server, or the failure is reported;
      // one with a negative id is taken for no context and stays.
      ensures old(batchStatus) < BATCH_SCANNING ==> ok && server.cache == old(server.cache)
      ensures ok ==> (old(batchStatus) !in server.cache.contexts
                      <==> old(batchStatus) >= BATCH_SCANNING || old(batchStatus) !in old(server.cache).contexts)
      ensures batchStatus == if old(batchStatus) >= BATCH_SCANNING && ok then BATCH_SCAN_FINISHED else old(batchStatus)
      ensures server.faults == if ok then old(server.faults) else old(server.faults) + [Lost]
    {
      ok := true;
      if batchStatus >= BATCH_SCANNING {
        ok := server.ClearScanner(batchStatus);
        if ok {
          batchStatus := BATCH_SCAN_FINISHED;
        }
      }
      gpidIndex := 0;
      closed := true;
    }
  }

  /** Any use of a scanner: calls of `Next` with arbitrary deadlines and of `Close`, against a
      server that drops contexts, requests and replies at will. */
  method AnyUse(server: ReplicaServer, gpidSlice: seq<nat>, query: ScanRequest, budgets: seq<nat>)
    returns (scanner: PegasusScanner)
    requires server.Valid() && query.WellFormed()
    requires forall i :: 0 <= i < |gpidSlice| ==> gpidSlice[i] < |server.partitions|
    modifies server
    ensures scanner.server == server && scanner.gpidSlice == gpidSlice && scanner.query == query
    ensures scanner.Valid()
    ensures forall kv <- scanner.emitted :: kv in scanner.Task().Expected()
    ensures scanner.repeats == 0 ==> scanner.emitted <= scanner.Task().Expected()
    ensures scanner.emitted <= scanner.Task().Expected() || (!server.dense && scanner.Task().Gappy())
  {
    scanner := new PegasusScanner(server, gpidSlice, query);
    for i := 0 to |budgets|
      invariant scanner.Valid() && fresh(scanner)
      invariant scanner.server == server && scanner.gpidSlice == gpidSlice && scanner.query == query
    {
      var close: bool := *;
      if close {
        var _ := scanner.Close();
      } else {
        var _ := scanner.Next(budgets[i]);
      }
    }
  }
}
