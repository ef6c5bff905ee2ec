# Apache Pegasus clients: a verified model

Pegasus is a distributed key-value store. This project models the protocol code of its
clients, with the part of the replica server the scanner talks to, and proves what that code
keeps in every run.

| files | what they model |
|---|---|
| `Bytes`, `KeyCodec`, `ScanRange` | composite keys, their order, the prefix successor, and how a scan of one hash key is narrowed and sent to a partition |
| `ScanServer`, `ScanProgress`, `Scanner`, `ScanRuns` | the Go scanner against a server that drops contexts, requests and replies; the runs of a scan and which scans can come out wrong |
| `EmptyRange` | scans the client opens and the server finds empty |
| `RangeKeys`, `DelRange`, `DeletingScan`, `UnorderedSplit` | the sort keys a scan of one hash key enumerates, deleting them in batches, and the scan of a partition that loses them meanwhile; sharing partitions out among scanners |
| `Crc64`, `NodeCrc`, `PythonCrc`, `BlobHash`, `Routing`, `PartitionTable` | the hash in three clients, from hash to partition, and redirection during a partition split |
| `MetaCall`, `MetaReplies`, `MetaRace`, `MetaRounds` | finding the leader among the meta servers, in the Go and the Node client |
| `NodeSession`, `NodeOutcomes`, `ReplicaRound` | matching replies to callers (Go), attempts and time budget of one request (Node) |
| `Deviation`, `Hotspot` | scoring hot partitions in the collector |
| `Arithmetic`, `Common` | shared facts about division, shared notions |

Code that updates state in place is modelled by classes and loops; each method is tied to a
function on values whose properties are proved as lemmas. Goroutines that share state
(`MetaCall`, `NodeSession`) are state machines whose steps are the lock and channel operations;
their theorems range over every run. Whatever the environment decides (lost RPCs, dropped
contexts, replies, timers, clock readings) is nondeterministic or a parameter.

## Findings

Some properties one would expect do not hold of the code. Each comes with an input or a run that
shows it and with the exact condition under which the property holds.

- A hash key of 65534 bytes makes the 16-bit end of the hash key wrap to 0, which panics in the
  slice expression; one of 65535 bytes is refused as malformed (`RestoreEncode`,
  `GpidOfEncoded`). `GetScanner` then opens a scanner without a partition, because the error of
  the lookup is dropped.
- The prefix successor of a key whose bytes behind the length are all 0xFF is the bare length
  prefix, so a prefix scan there is refused although keys match (`SuccessorBoundsExtensions`,
  `RewritePreserves`, `RefusedRangeIsEmpty`, `AllOnesPrefixIsRefused`).
- A scan without a stop sort key ends before FF FF, not at the end of the hash key
  (`RequestedSortKeys`, `HighSortKeyMissed`).
- The server can answer with an empty batch that is not the last one (records filtered out
  while a read limit is hit). If the context is then lost, the scanner has no key to resume
  from and starts the partition over: records come twice (`EmptyBatchThenLossRepeats`). Which
  scans are exposed is known beforehand: a completed scan can differ from the expected records
  if and only if some partition holds a matching record, behind it one that is filtered out
  below the stop key, and behind that another one (`WrongIffGap`). Which records end a batch is
  left to the server's read limits; the three records of the first lemma need batch size 1, since
  a batch after the first reads at most that many records
  (src/server/pegasus_server_impl.cpp:1434-1440). The records of a partition are those the
  server's iterator runs over: with a prefix extractor it ends at the hash key
  (src/server/pegasus_server_impl_init.cpp:835-840), so for a scan of one hash key the third
  record has to share it.
- `Close` leaves a context with a negative id at the server and reports success, because it
  takes only ids from 0 on for live contexts. Ids start at a random 32-bit number shifted left
  by 32 bits in a signed 64-bit integer (src/server/pegasus_scan_context.h:102-103), so about
  half of them are negative. After a successful `Close` the scanner's context is gone if and
  only if its id is at least 0 or it was not live (`Scanner.PegasusScanner.Close`,
  `NegativeContextStays`).
- The server answers a scan of an empty key range with success and context id 0. The scanner
  takes that for a live context and never completes (`Scanner.PegasusScanner.Next`). The client
  refuses empty ranges, but a prefix filter on the hash key moves the start at the server: the
  range is empty there if and only if the pattern comes after the hash key, by length and then
  by bytes (`EmptyIffAfter`, `OpenedAndEmpty`). This needs a server without a prefix extractor,
  that is `rocksdb_filter_type` "common" or disabled bloom filters; with a prefix extractor the
  server aborts on such a request (src/server/pegasus_server_impl.cpp:1219).
- After a `DelRangeOpt` that succeeded, the key noted for a retry is cleared only if the number
  of keys is not a multiple of the batch size (`DelRange.DelRangeOpt`, `StaleRetryKey`).
- The Go split of partitions among unordered scanners panics for some counts, for instance 8
  partitions and at most 7 scanners (`GoUnorderedScanners`, `EightBySevenPanics`).
- Two goroutines of one meta call can append the same forwarded address, because the lock is
  released between the search and the append. From distinct addresses this can happen if and
  only if the call was given more than one meta server (`DuplicateIffMany`,
  `AddressListedTwice`).
- A reply to a request whose write reported a failure can trigger the panic that the session
  calls impossible (`ReplyAfterFailedWritePanics`): exactly if the reply is found before the
  request loop drops the call and the second notification comes before the caller has received
  the first (`PanicExactly`, `ReplyToFailedWrite`).
- A configuration update that changes the partition count and then fails leaves entries unset,
  so that some hash panics in routing (`FailedResizeBreaksRouting`), for instance a response for
  two partitions, the second without a configuration, on a table of four
  (`NilConfigurationBreaksRouting`). A complete table stays complete if and only if the response
  is rejected, keeps the partition count, or is taken over without failure and names every
  partition (`CompleteAfter`, `PartitionTable.TableConnector.HandleQueryConfigResp`).
- The comment at go-client/pegasus/table_connector.go:291 asks for at least 4 partitions; the
  code, and the model, accept 2. The Go client redirects a partition with ballot 0 to its
  parent, the other clients only one with a negative ballot (`RedirectionsDiffer`).

## Model

| member | source | states |
|---|---|---|
| `KeyCodec.EncodeHashKeySortKey` | go-client/pegasus/util.go:29-48 | the buffer filled in place is the big-endian length, the hash key and the sort key |
| `KeyCodec.RestoreEncode` | go-client/pegasus/scanner.go:314-327 | restoring inverts encoding if and only if the hash key has at most 65533 bytes; 65534 panics, 65535 is malformed |
| `KeyCodec.EncodeRestored` | go-client/pegasus/scanner.go:314-327 | a key that can be restored is the encoding of what it is restored to |
| `KeyCodec.EncodeInjective` | go-client/pegasus/util.go:29-48 | over all hash keys the client admits, different key pairs have different encodings |
| `KeyCodec.EncodeOrder` | go-client/pegasus/util.go:29-48 | under one hash key, byte order, equality and prefixes of encodings are those of the sort keys |
| `KeyCodec.EncodeNextBytesByKeys` | go-client/pegasus/util.go:50-62 | the backward in-place loop computes the recursive successor |
| `KeyCodec.ExtensionsBelowSuccessor` | go-client/pegasus/util.go:50-62 | for a key with a byte other than 0xFF behind the length, its extensions are exactly the strings in [key, successor) |
| `KeyCodec.SuccessorWithoutIncrement` | go-client/pegasus/util.go:50-62 | with no such byte the successor is the bare length prefix |
| `KeyCodec.SuccessorBoundsExtensions` | go-client/pegasus/util.go:50-62 | the interval is exact for every string if and only if some byte behind the length is not 0xFF |
| `KeyCodec.HashPrefixFloor` | src/server/pegasus_server_impl.cpp:1151-1397 | every key whose hash key extends a pattern lies at or above the bound the server derives from it |
| `ScanRange.GetScanner` | go-client/pegasus/table_connector.go:578-623 | which calls are refused, panic or open; the range, the options and the partition of an opened scan; an opened scan reaches exactly the wanted sort keys of the requested range, and a refused one had none if and only if no match is lost to a prefix of 0xFF bytes |
| `ScanRange.NarrowToPrefix` | go-client/pegasus/table_connector.go:594-610 | the in-place branch for prefix filters computes the narrowed range with its inclusivity |
| `ScanRange.NarrowedHolds` | go-client/pegasus/table_connector.go:594-610 | between the prefix and its successor the narrowed range holds what the original holds |
| `ScanRange.RewritePreserves` | go-client/pegasus/table_connector.go:585-620 | for every sort key that passes the filter, narrowed and requested range agree, if and only if the prefix can be incremented or the request reaches no match |
| `ScanRange.RefusedRangeIsEmpty` | go-client/pegasus/table_connector.go:612-620 | a range refused as empty held no wanted key, under exactly the same condition |
| `ScanRange.HoldsExtensionIsExact` | go-client/pegasus/table_connector.go:585-620 | whether a range holds an extension of a key can be read off its ends |
| `ScanRange.AllOnesPrefixIsRefused` | go-client/pegasus/table_connector.go:594-620 | hash key FF with prefix FF is refused although sort key FF is in the range |
| `ScanRange.RequestedSortKeys` | go-client/pegasus/table_connector.go:585-592 | the requested range in terms of sort keys; without a stop key it ends before FF FF |
| `ScanRange.HighSortKeyMissed` | go-client/pegasus/table_connector.go:585-592 | sort key FF FF is missed by a scan of all sort keys |
| `ScanRange.ScannedUnderHashKey` | go-client/pegasus/table_connector.go:585-620 | a scan the client opens reaches keys of its hash key only |
| `ScanRange.PassesMeans` | src/server/pegasus_server_impl.cpp:2350-2377 | no filter lets every key through; the others let exactly those through that contain the pattern, start with it or end in it |
| `ScanRange.GpidOfEncoded` | go-client/pegasus/table_connector.go:933-952 | an encoded key is looked up under the hash of its hash key, or of its sort key if that is empty, exactly up to 65533 bytes |
| `ScanServer.ReplicaServer.Read` | src/server/pegasus_server_impl.cpp:1399-1547 | a batch and the context left behind together cover what was ahead, in order |
| `ScanServer.ReplicaServer.GetScanner` | src/server/pegasus_server_impl.cpp:1151-1397 | a new scan may be refused; it answers an empty range with context id 0, and any other with a batch from the first record at or behind the start key and a context for the rest |
| `ScanServer.ReplicaServer.Scan` | src/server/pegasus_server_impl.cpp:1399-1547 | a continued scan takes the context, reads on and stores it under a new id; a missing context is reported and was lost before |
| `ScanServer.ReplicaServer.ClearScanner` | src/server/pegasus_server_impl.cpp:1549-1549 | an acknowledged drop removes the context; the others that survive are unchanged |
| `ScanServer.ReplicaServer.Disturb` | src/server/pegasus_scan_context.h:111-115 | any set of contexts can vanish; those that stay are unchanged |
| `ScanServer.BatchConserves` | src/server/pegasus_server_impl.cpp:1399-1547 | batch and remainder add up to the selected records |
| `ScanServer.PartialBatchBelowStop` | src/server/pegasus_server_impl.cpp:1399-1547 | the records of a batch that is not the last lie below the stop key |
| `ScanServer.SeekSelects` | src/server/pegasus_server_impl.cpp:1243-1276 | seeking to the start key loses no selected record |
| `ScanServer.SelectEmptyRange` | src/server/pegasus_server_impl.cpp:1224-1241 | the server's test for an empty range is right: nothing is selected |
| `ScanServer.ResumeYieldsRest` | go-client/pegasus/scanner.go:200-215 | a request behind the last delivered record selects exactly the undelivered rest |
| `ScanProgress.EndOfScan` | go-client/pegasus/scanner.go:167-192 | at the end the records handed out are, as a set, the expected ones, and exactly the expected sequence if and only if no restart repeated a record; without a gap it always is; the surplus is the number of repeats |
| `ScanProgress.EmptyBatchGap` | src/server/pegasus_server_impl.cpp:1399-1547 | an empty batch that is not the last, behind a selected record, shows a gap |
| `ScanProgress.ValidDelivers` | go-client/pegasus/scanner.go:135-290 | at any moment every record handed out is an expected one, and without repeats they are a prefix of the expected sequence |
| `ScanProgress.EmptyRangeHandsOutNothing` | go-client/pegasus/scanner.go:200-243 | a scan of an empty range never has a record to hand out |
| `ScanProgress.ResumePoint` | go-client/pegasus/scanner.go:203-215 | the request for a new context asks for the unreceived records, or with an empty buffer for the whole partition |
| `ScanProgress.HandOutKeeps` | go-client/pegasus/scanner.go:167-192 | handing out a buffered record keeps the scan in order and uses up a buffered record |
| `ScanProgress.NextPartitionKeeps` | go-client/pegasus/scanner.go:171-182 | turning to the next partition keeps the scan in order at no cost |
| `ScanProgress.StatusKeeps` | go-client/pegasus/scanner.go:264-290 | an RPC error, a server error or a lost context keeps the scan in order |
| `ScanProgress.MissingContextWork` | go-client/pegasus/scanner.go:245-262 | a lost context is paid for by the loss, so the remaining work still decreases |
| `ScanProgress.OpenedKeeps` | go-client/pegasus/scanner.go:200-243 | the reply to a request for a new context keeps the scan in order |
| `ScanProgress.OpenedWork` | go-client/pegasus/scanner.go:200-243 | such a reply reduces the remaining work |
| `ScanProgress.ContinuedKeeps` | go-client/pegasus/scanner.go:245-262 | the reply to a continued scan keeps the scan in order |
| `ScanProgress.ContinuedWork` | go-client/pegasus/scanner.go:245-262 | such a reply reduces the remaining work |
| `ScanProgress.EmptyBufferRestartRepeats` | go-client/pegasus/scanner.go:203-209 | restarting with an empty buffer after records were handed out makes the next record one handed out before |
| `Scanner.PegasusScanner.constructor` | go-client/pegasus/scanner.go:99-118 | a new scanner stands before the last partition of its slice |
| `Scanner.PegasusScanner.Next` | go-client/pegasus/scanner.go:135-165 | each call hands out the next record, completes or fails; completed means all expected records, exactly if nothing was repeated, and is stable; a server error is final, an RPC error is reported once more before the scan goes on; each record brings the scan closer to its end; a call needs a bounded number of RPCs unless the range is empty, and then it always fails; an error is reported as pending exactly if one is, and as closed exactly if the scanner is; otherwise a failure is the deadline, one lost RPC or the code of one refusal by the server, and nothing else |
| `Scanner.PegasusScanner.DoNext` | go-client/pegasus/scanner.go:167-192 | the loop over partitions and batches keeps the scan in order and makes progress |
| `Scanner.PegasusScanner.StartScanPartition` | go-client/pegasus/scanner.go:200-243 | opening a context, from the start or behind the last buffered record, keeps the scan in order |
| `Scanner.PegasusScanner.NextBatch` | go-client/pegasus/scanner.go:245-262 | fetching a batch, or finding the context gone, keeps the scan in order |
| `Scanner.PegasusScanner.OnRecvScanResponse` | go-client/pegasus/scanner.go:264-290 | a reply replaces the buffer; a missing context keeps it and asks for a new context; other errors are kept as such |
| `Scanner.PegasusScanner.Close` | go-client/pegasus/scanner.go:292-312 | closing hands out nothing more; a context with an id from 0 on is gone at the server, or the failure is reported and the status kept; one with a negative id is left there; it fails only if its RPC is lost |
| `Scanner.AnyUse` | go-client/pegasus/scanner.go:135-312 | after any sequence of calls, against any behaviour of the server, only expected records were handed out; they are a prefix of the expected ones if nothing was repeated, and always if no partition has a gap or no batch but the last is empty |
| `ScanRuns.StepKeeps` | go-client/pegasus/scanner.go:135-290 | every step of a scan, as a step on values, keeps it in order |
| `ScanRuns.FinishPartition` | go-client/pegasus/scanner.go:167-243 | from the start or a restart of a partition a run hands out all it selects, and counts what a blind restart repeats |
| `ScanRuns.LoseInGap` | go-client/pegasus/scanner.go:203-262 | from a gap, a run that delivers the records before it, gets an empty batch and loses its context |
| `ScanRuns.RepeatingRun` | go-client/pegasus/scanner.go:167-262 | every gap gives a run that delivers the records before it twice and still completes |
| `ScanRuns.WrongIffGap` | go-client/pegasus/scanner.go:167-262 | a scan has a completing run with other records than the expected ones if and only if a partition of its slice, as far as the server's iterator runs over it, has a gap |
| `ScanRuns.EmptyBatchThenLossRepeats` | go-client/pegasus/scanner.go:203-209 | a run over three composite keys that completes with the first record handed out twice |
| `ScanRuns.NegativeContextStays` | go-client/pegasus/scanner.go:292-312 | a run after which the server holds the scanner's context under a negative id, which `Close` takes for no context |
| `EmptyRange.EmptyIffAfter` | src/server/pegasus_server_impl.cpp:1206-1241 | a range the client opens is empty at the server if and only if the pattern of the hash-key filter comes after the hash key |
| `EmptyRange.OpenedAndEmpty` | src/server/pegasus_server_impl.cpp:1206-1241 | such a request: hash key 1, filter 1 1 |
| `RangeKeys.SelectedIsWanted` | go-client/pegasus/table_connector.go:490-559 | a record the scan selects has the scan's hash key and a wanted sort key |
| `RangeKeys.EnumeratesOnce` | go-client/pegasus/table_connector.go:490-559 | the scan the client opens for one hash key, with or without filters, enumerates no sort key twice |
| `RangeKeys.EnumeratesWanted` | go-client/pegasus/table_connector.go:490-559 | it enumerates each sort key in the requested range that passes the filter exactly once, and nothing else |
| `RangeKeys.ExpectedOnlyWanted` | go-client/pegasus/table_connector.go:490-559 | expected records, in any order and number, name only wanted sort keys |
| `RangeKeys.ExpectedAllWanted` | go-client/pegasus/table_connector.go:490-559 | records that include all expected ones name every wanted sort key |
| `RangeKeys.DeletionsUnseen` | go-client/pegasus/scanner.go:203-209 | deleting records up to the last one received changes nothing that a resumed scan reads |
| `DelRange.DelRangeOpt` | go-client/pegasus/table_connector.go:490-559 | whatever the outcome, only sort keys in the requested range that pass the filter are deleted; success: all of them, and without repeats, which need a gap, each exactly once; failure of a batch: exactly the first `index` keys are deleted; every batch has 1 to 1000 keys; a scan that cannot be opened deletes nothing; which key is noted for a retry; it fails only for a fault of the scan, a deletion not acknowledged, or a deadline below the RPCs a whole scan can cost |
| `DelRange.RequestedInRange` | go-client/pegasus/table_connector.go:490-512 | which sort keys are asked for, in terms of the start key, the stop key and the options |
| `DelRange.DeleteOpened` | go-client/pegasus/table_connector.go:520-555 | from an opened scan: what was deleted and why it failed, if it did; no key is unreadable |
| `DelRange.DeletesWanted` | go-client/pegasus/table_connector.go:490-559 | what the outcome says of the wanted sort keys: none but them, all of them, each once |
| `DelRange.Collect` | go-client/pegasus/table_connector.go:529-542 | one key more, with a full batch deleted or reported at once |
| `DelRange.DeleteLast` | go-client/pegasus/table_connector.go:545-555 | the last partial batch |
| `DelRange.FullBatchDeleted` | go-client/pegasus/table_connector.go:529-542 | a deleted full batch leaves deleted and collected keys adding up to the enumerated ones |
| `DelRange.FullBatchFailed` | go-client/pegasus/table_connector.go:529-538 | a failed full batch starts at the key noted for a retry |
| `DelRange.LastBatch` | go-client/pegasus/table_connector.go:545-555 | deleting the last batch completes the enumerated keys; if it fails the noted key is the one of the batch before |
| `DelRange.StaleRetryKey` | go-client/pegasus/table_connector.go:531-555 | 1000 keys deleted with success leave the first one noted for a retry |
| `DeletingScan.SourceOf` | go-client/pegasus/scanner.go:203-215 | while records are being deleted, a new context still reads every matching record that has not reached the scanner |
| `DeletingScan.StepKeeps` | go-client/pegasus/scanner.go:167-290 | every step of the scan, and every deletion of records handed out, keeps every matching record within reach |
| `DeletingScan.EveryRun` | go-client/pegasus/table_connector.go:490-559 | in every run, with any losses of contexts and any gaps, only matching records are handed out and deleted; once the scan is finished and all it handed out is deleted, exactly the unmatched records are left |
| `DeletingScan.DeletionLeavesUnwanted` | go-client/pegasus/table_connector.go:490-559 | the same for the scan a range deletion opens: at no time is anything gone but what was asked for, and in the end nothing of that is left |
| `UnorderedSplit.PythonUnorderedScanners` | python-client/pypegasus/pgclient.py:1085-1108 | for every positive count, every partition goes to exactly one scanner, to no more scanners than asked for, in shares that differ by at most one, larger ones first; the cases without scanners and with a division by zero |
| `UnorderedSplit.GoUnorderedScanners` | go-client/pegasus/table_connector.go:625-668 | the split panics exactly if the quota times the scanners but one exceeds the number of partitions; otherwise it is an exact cover by consecutive partitions, every scanner but the first getting the quota |
| `UnorderedSplit.LeastMultiplier` | go-client/pegasus/table_connector.go:643-645 | the loop finds the least positive number of partitions per scanner that covers the table |
| `UnorderedSplit.CoverFromList` | go-client/pegasus/table_connector.go:648-664 | shares whose concatenation lists every partition once are an exact cover |
| `UnorderedSplit.EightBySevenPanics` | go-client/pegasus/table_connector.go:643-656 | 8 partitions for at most 7 scanners panic |
| `UnorderedSplit.DivisorNeverPanics` | go-client/pegasus/table_connector.go:643-656 | a split count that divides the number of partitions does not |
| `Crc64.BitStepLinear` | go-client/pegasus/util.go:64-68 | one bit step of the CRC is linear under exclusive or |
| `Crc64.BitStepsLinear` | go-client/pegasus/util.go:64-68 | any number of bit steps is |
| `Crc64.EntryXor` | nodejs-client/src/table_handler.js:440-505 | table entries are linear in their index |
| `Crc64.TableStep` | nodejs-client/src/table_handler.js:519-523 | one table step equals eight bit steps, for every state and byte |
| `Crc64.TableChecksum` | go-client/pegasus/util.go:64-68 | the table-driven checksum equals the bit-by-bit one with the reflected polynomial, for every byte string |
| `NodeCrc.TableEntryIsEntry` | nodejs-client/src/table_handler.js:440-505 | all 256 literals of the table are the computed entries |
| `NodeCrc.HashBuffer` | nodejs-client/src/table_handler.js:514-525 | the Node hash of a slice equals the bit-by-bit checksum |
| `PythonCrc.AgreeIsCongruence` | python-client/pypegasus/pgclient.py:543-578 | agreeing in 64 bits with one word is congruence modulo 2^64 |
| `PythonCrc.AgreeXor` | python-client/pypegasus/pgclient.py:562-564 | exclusive or of unbounded integers agrees with that of words |
| `PythonCrc.HalfAgrees` | python-client/pypegasus/pgclient.py:547-553 | the unsigned shift of a signed number agrees with the word shift |
| `PythonCrc.StepAgrees` | python-client/pypegasus/pgclient.py:559-565 | one bit step on signed integers agrees with the word's |
| `PythonCrc.PopulateTable` | python-client/pypegasus/pgclient.py:555-566 | every entry of Python's table, signed or not, agrees with the word entry in 64 bits |
| `PythonCrc.FeedAgrees` | python-client/pypegasus/pgclient.py:572-573 | one table step in Python agrees with eight bit steps on words |
| `PythonCrc.HashSlice` | python-client/pypegasus/pgclient.py:567-574 | the Python hash agrees in 64 bits with the bit-by-bit checksum of the slice |
| `Routing.NodeIndex` | nodejs-client/src/table_handler.js:214-220 | the truncated remainder, lifted by the loop, is the floor remainder |
| `Routing.ClientsAgreeOnPartitions` | python-client/pypegasus/pgclient.py:384-385 | the three remainders select the same partition for every 64-bit hash if and only if the count divides 2^64 |
| `Routing.PredecessorSharesNoBit` | go-client/pegasus/table_connector.go:290-293 | the bit trick accepts exactly the powers of two |
| `Routing.ValidCountsRouteAlike` | go-client/pegasus/table_connector.go:290-293 | the counts the Go client accepts are exactly those from 2 on for which all clients agree on every hash |
| `Routing.KeysRouteAlike` | go-client/pegasus/table_connector.go:794-802 | the checksum of any bytes leads all clients to the same partition |
| `BlobHash.BlobHashesAgree` | nodejs-client/src/table_handler.js:544-561 | of a whole key all clients hash the same bytes, the hash key or, without one, the sort key: Go up to 65533 bytes of hash key, Python up to 65534, Node up to 32767 |
| `BlobHash.GoLookup` | go-client/pegasus/table_connector.go:933-952 | the lookup with its own slice and checksum by table is the one the scans use |
| `BlobHash.NodeLookup` | nodejs-client/src/table_handler.js:214-220 | the loop over the blob and the lifted remainder of the signed hash |
| `BlobHash.PythonLookup` | python-client/pypegasus/pgclient.py:384-385 | the loop over the slice and the floor remainder of the unbounded hash give the partition of the unsigned hash |
| `BlobHash.OneKeyOnePartition` | nodejs-client/src/table_handler.js:544-561 | one key, looked up by the loops, tables and remainders of the three clients, reaches one partition, that of the CRC-64 of its hash key |
| `BlobHash.NodeHashBeyondLimit` | nodejs-client/src/tools.js:76-94 | from 32768 bytes on Node refuses to build the key; its hash would read a negative length and hash nothing |
| `PartitionTable.TableConnector.HandleQueryConfigResp` | go-client/pegasus/table_connector.go:295-336 | which responses are rejected, unresolvable or panic, and the table each leaves; a complete table stays complete if and only if the response is rejected, keeps the size, or is taken over and names every partition |
| `PartitionTable.UpdateCompletes` | go-client/pegasus/table_connector.go:314-335 | a successful update that names every index leaves every entry set, with a session exactly for ballots from 0 on |
| `PartitionTable.OutcomeExactly` | go-client/pegasus/table_connector.go:314-335 | an update succeeds if and only if every configuration fits; otherwise it stops at the first that does not, with those before it taken over |
| `PartitionTable.LastConfigurationWins` | go-client/pegasus/table_connector.go:314-335 | an entry holds the ballot and the primary of the last configuration that names it |
| `PartitionTable.HashReachesPrimary` | go-client/pegasus/table_connector.go:787-815 | after an update a hash goes to the primary of its partition, or, without a positive ballot there, to that of its partition before the split; all other cases |
| `PartitionTable.EveryHashReachesASession` | go-client/pegasus/table_connector.go:787-815 | in a complete table of even size every hash reaches a session if and only if all lower-half ballots are positive |
| `PartitionTable.UpdatedTableRoutes` | go-client/pegasus/table_connector.go:295-336 | the same after a successful update that names every partition |
| `PartitionTable.ChildServedByParent` | go-client/pegasus/table_connector.go:794-802 | a child that is not ready is served by the hash's partition before the split |
| `PartitionTable.RedirectionsDiffer` | python-client/pypegasus/pgclient.py:384-392 | the redirections of the Go client and of the others choose the same partition if and only if the ballot is not 0 |
| `PartitionTable.FailedResizeBreaksRouting` | go-client/pegasus/table_connector.go:308-319 | after an update that resized the table and failed, some hash panics |
| `PartitionTable.TakeOverKeepsComplete` | go-client/pegasus/table_connector.go:314-335 | without a resize a complete table stays complete, even if the update fails half-way |
| `PartitionTable.CompleteAfter` | go-client/pegasus/table_connector.go:308-335 | from a complete table the updated one is complete if and only if the size is the same, or the update succeeds and names every partition |
| `PartitionTable.NilConfigurationBreaksRouting` | go-client/pegasus/table_connector.go:308-319 | a response for two partitions, the second without a configuration, makes hash 1 panic on a table of four |
| `MetaCall.StepKeeps` | go-client/session/meta_call.go:56-194 | every step of every goroutine keeps the lists aligned, the leader in range, the result sound and the record of who was asked |
| `MetaCall.BystanderSound` | go-client/session/meta_call.go:117-168 | a goroutine's view of the lists survives the steps of the others |
| `MetaCall.EveryRun` | go-client/session/meta_call.go:68-194 | at every moment of every run: lists aligned, original entries in place, the new leader is the old one or one that answered, at most one response and never a forward; on return every goroutine has ended; no run has more than 8n + 24 steps for n metas |
| `MetaCall.StepDecreases` | go-client/session/meta_call.go:68-194 | every step uses up a bound that accounts for goroutines still to be spawned |
| `MetaCall.QuietMeansOver` | go-client/session/meta_call.go:100-114 | once the context is over or cancelled no goroutine and no channel operation can block; otherwise the call waits for ever only if every meta it was given and every meta it learned of was asked, and all failed or forwarded |
| `MetaCall.CancelledCallReturns` | go-client/session/meta_call.go:100-114 | from every state with the context over or cancelled the call can be driven to its return |
| `MetaReplies.RepliesExplain` | go-client/session/meta_call.go:117-168 | in every run: a response passed on is one a meta server gave, unchanged; a new leader stands for a meta that answered; every address added was named by a forward |
| `MetaReplies.WaitsUnanswered` | go-client/session/meta_call.go:100-168 | a call that waits for ever has asked every meta given or learned, and every reply was a failure or a forward |
| `MetaReplies.StepKeepsKnowing` | go-client/session/meta_call.go:117-168 | what each goroutine has in hand was said by the meta it is concerned with |
| `MetaReplies.StepKeepsExplained` | go-client/session/meta_call.go:117-168 | no answer is dropped: it stays with a goroutine until one ends with a response |
| `MetaReplies.LeaderAnswers` | go-client/session/meta_call.go:68-114 | for any list, leader and answer, a run that returns the answer and keeps the leader |
| `MetaRace.DistinctUnlessRace` | go-client/session/meta_call.go:123-152 | a step keeps the addresses distinct if and only if it is not a search that misses an address another goroutine is about to append |
| `MetaRace.RaceDuplicates` | go-client/session/meta_call.go:123-152 | every race can be driven to a duplicate |
| `MetaRace.DuplicateIffRace` | go-client/session/meta_call.go:123-152 | over runs: from distinct addresses a duplicate is reachable if and only if a race is |
| `MetaRace.DuplicateIffMany` | go-client/session/meta_call.go:68-152 | from distinct addresses a duplicate is reachable if and only if the call was given more than one meta |
| `MetaRace.AddressListedTwice` | go-client/session/meta_call.go:123-152 | a run after which an address is listed twice |
| `MetaReplies.MetaManager.Call` | go-client/session/meta_session.go:95-106 | serial calls keep the manager's leader in range and its lists aligned; only a response replaces them, it is one that a meta gave, the leader kept answered, and every new address was named by a forward |
| `MetaRounds.MetaSession.OnFinishQueryMeta` | nodejs-client/src/session.js:188-245 | the leader moves on by one exactly if it is the one that failed the round, by a forward or by being out of reach; the callback comes with an answer, an unknown error or the last allowed reply; the round asks the leader next, after a delay exactly if the meta was not active or out of reach; other rounds are untouched |
| `MetaRounds.MetaSession.LeaderFailsTwice` | nodejs-client/src/session.js:228-233 | two rounds failed by the same leader move it one step only |
| `MetaRounds.AnyCourse` | nodejs-client/src/session.js:152-256 | for any number of concurrent rounds the leader stays in range and each round calls back at most once, within five replies |
| `MetaRounds.ForwardedRound` | nodejs-client/src/session.js:209-244 | a lone round that is forwarded each time asks the metas in turn |
| `MetaRounds.FiveReplies` | nodejs-client/src/session.js:188-200 | a new round goes on after four forwards and calls back with the fifth |
| `NodeSession.SameSeqId` | go-client/session/session.go:370-370 | two calls share a sequence id if and only if a multiple of 2^32 calls lies between them |
| `NodeSession.StepKeeps` | go-client/session/session.go:221-325 | every step of the callers and the two loops keeps the books or panics, whatever the server does, for at most 2^32 calls |
| `NodeSession.EveryRun` | go-client/session/session.go:221-407 | in every run that has not panicked, whatever the server does: each loop notifies a caller at most once; what it gets is a failure only if its write failed, or the reply with its own sequence id; a written call not yet answered can be found by its reply |
| `NodeSession.EveryHonestRun` | go-client/session/session.go:221-407 | if replies only answer writes that succeed, even when read before the write returns, nothing panics and each caller is notified at most once in all |
| `NodeSession.PanicExactly` | go-client/session/session.go:221-231 | a step panics if and only if it notifies a caller the other loop has notified and the caller has not received; the write of such a call failed and its reply was found |
| `NodeSession.FoundBeforeDrop` | go-client/session/session.go:235-268 | a call whose write failed and that no reply has found is registered exactly until the request loop drops it |
| `NodeSession.ReplyToFailedWrite` | go-client/session/session.go:221-325 | a reply to a call whose failure was notified panics if and only if the call is not dropped and the failure not received; otherwise it is stale or reaches an empty channel |
| `NodeSession.StaleReplyIgnored` | go-client/session/session.go:310-318 | a reply to a call already answered, or dropped after a failed write, changes neither a listener nor the table |
| `NodeSession.ReplyReachesItsCaller` | go-client/session/session.go:308-324 | a reply to a call written or being written and not yet answered fills that call's channel and no other, and its waiting caller gets it |
| `NodeSession.FailureReachesItsCaller` | go-client/session/session.go:254-266 | a failed write fills that call's channel and no other, and its waiting caller gets the failure |
| `NodeSession.NothingWrittenAfterFatal` | go-client/session/session.go:262-265 | in no run is a request taken or written after a failure that is not a timeout |
| `NodeSession.OtherFailuresGoOn` | go-client/session/session.go:262-265 | after a timeout the next request is taken |
| `NodeSession.ReplyReceived` | go-client/session/session.go:361-407 | a run in which a caller gets the body read for it |
| `NodeOutcomes.OutcomesFromRun` | go-client/session/session.go:221-407 | in every run, what a caller got was read under its own sequence id in that run, or its own write failed in it |
| `NodeSession.ReplyAfterFailedWritePanics` | go-client/session/session.go:221-231 | a run that panics, with a reply to a request whose write reported a failure |
| `ReplicaRound.SendKeeps` | nodejs-client/src/connection.js:245-270 | sending an attempt keeps exactly one thing outstanding |
| `ReplicaRound.FinishKeeps` | nodejs-client/src/connection.js:380-396 | the end of an attempt takes the time that has passed since its start off the budget |
| `ReplicaRound.SettleKeeps` | nodejs-client/src/session.js:402-421 | after an attempt either the callback is called or one retry is scheduled, with the delay taken off the budget |
| `ReplicaRound.RoundFacts` | nodejs-client/src/session.js:342-421 | at every moment: at most one callback, with the last attempt's error code; budget, used time and delays add up to the initial timeout, and with the lateness of retries to the time that has passed; an error comes at most one unit before the initial timeout is over, and the result of an attempt within its budget not after it; every retry has a positive budget, at least 1 below the one before; fewer retries than the initial timeout; a round without result has a timer running |
| `ReplicaRound.AttemptEnds` | nodejs-client/src/session.js:342-421 | an attempt that has ended goes to the callback if and only if it succeeded or left at most 1 of its budget; any other is retried after a third of what is left, at least 1 |
| `ReplicaRound.ReplicaSession.Operate` | nodejs-client/src/session.js:309-315 | sends the operator; on a closed connection the attempt fails at once |
| `ReplicaRound.ReplicaSession.CleanupRequests` | nodejs-client/src/connection.js:145-155 | fails the registered request, and only that |
| `ReplicaRound.ReplicaSession.SetException` | nodejs-client/src/connection.js:362-371 | a live request is ended with the given error code |
| `ReplicaRound.ReplicaSession.CallComplete` | nodejs-client/src/connection.js:376-396 | a request completes once, with the time since its start taken off the budget: a done one stays as it is |
| `ReplicaRound.ReplicaSession.OnRpcReply` | nodejs-client/src/session.js:342-400 | success goes to the callback, every error to the retry |
| `ReplicaRound.ReplicaSession.TryRetry` | nodejs-client/src/session.js:402-421 | retries after a third of the remaining budget, at least 1, or calls back |
| `ReplicaRound.ReplicaSession.HandleTimeout` | nodejs-client/src/connection.js:348-357 | the timer ends the attempt with a timeout |
| `ReplicaRound.ReplicaSession.OnReply` | nodejs-client/src/connection.js:188-206 | a reply ends the attempt it belongs to; a late one is dropped |
| `ReplicaRound.ReplicaSession.HandleClose` | nodejs-client/src/connection.js:103-155 | closing the connection ends the attempt in flight |
| `ReplicaRound.ReplicaSession.Retry` | nodejs-client/src/session.js:405-410 | the delay over, the next attempt is sent with the whole remaining budget |
| `ReplicaRound.AnyCourse` | nodejs-client/src/session.js:309-421 | for any interleaving of replies, timeouts and closes the callback is called at most once, with success if and only if a success reply reached a waiting attempt, and else with the code the last attempt ended with, not before the initial timeout less 1; budget, the spans of all attempts and delays add up to it; the retries are bounded |
| `Deviation.CauchySchwarz` | collector/hotspot/partition_detector.go:621-630 | the square of a sum is at most the count times the sum of squares |
| `Deviation.OneTerm` | collector/hotspot/partition_detector.go:621-630 | no single deviation exceeds its share of the squared deviations |
| `Hotspot.PartitionAnalyzer.Add` | collector/hotspot/partition_detector.go:555-570 | the window is the latest `maxSampleSize` samples of everything ever added |
| `Hotspot.PartitionAnalyzer.CalculateScores` | collector/hotspot/partition_detector.go:597-645 | the loops compute the scores of the latest sample over the whole window, or nothing for fewer than two loads |
| `Hotspot.PartitionAnalyzer.Totals` | collector/hotspot/partition_detector.go:603-612 | the first loop computes the number of loads and their sum |
| `Hotspot.PartitionAnalyzer.SquaredDeviations` | collector/hotspot/partition_detector.go:621-628 | the second loop sums the squared deviations |
| `Hotspot.PartitionAnalyzer.CountHotspots` | collector/hotspot/partition_detector.go:647-665 | counts the partitions over both thresholds, as the size of their set |
| `Hotspot.PartitionAnalyzer.AnalyseHotspots` | collector/hotspot/partition_detector.go:580-593 | the result is the number of partitions of the latest sample flagged by the window; times the squared threshold it is at most the loads less one, and zero if the threshold is too large for the window |
| `Hotspot.ScoreBound` | collector/hotspot/partition_detector.go:633-642 | every squared score times n is at most (n - 1) squared |
| `Hotspot.HotCounts` | collector/hotspot/partition_detector.go:647-665 | the count is the size of the set of partitions over both thresholds |
| `Hotspot.WindowConcat` | collector/hotspot/partition_detector.go:603-612 | the window lists the loads of all its samples |
| `Hotspot.FewHotspots` | collector/hotspot/partition_detector.go:597-665 | hotspots times squared threshold is at most n - 1 |
| `Hotspot.ThresholdTooLarge` | collector/hotspot/partition_detector.go:597-665 | a threshold whose square times n exceeds (n - 1) squared flags nothing |
| `Hotspot.ScoreBoundAttained` | collector/hotspot/partition_detector.go:633-642 | the bound on scores is reached by a window with all load on one partition |
| `Hotspot.SpikeFlagged` | collector/hotspot/partition_detector.go:597-665 | a threshold within the bound flags a partition that carries all load, above any load threshold, for reads or for writes and not for the other |
| `Hotspot.ThresholdExact` | collector/hotspot/partition_detector.go:597-665 | a threshold can flag something in a window of n loads if and only if its square times n is at most (n - 1) squared |
| `Hotspot.ScoresShift` | collector/hotspot/partition_detector.go:633-642 | adding the same amount to every load changes no score |
| `Hotspot.ScoresUnscaled` | collector/hotspot/partition_detector.go:633-642 | multiplying every load by a positive number changes no score |

## Left out

- Sockets, dialling, redialling with overlapping loops, timers and logging: they appear as nondeterministic events only.
- Thrift bodies, RPC wrappers and response framing: mechanical, over libraries that are not part of this model.
- The replication protocol itself, and concurrent writers during a scan: a partition's records stay the same while it is scanned, but for the deletions in `DeletingScan`.
- `DelRange.DelRangeOpt`: the method scans partitions that do not lose the deleted records; a scan whose partition does lose them is modelled on values (`DeletingScan`), where it ends with the same keys deleted.
- `ScanServer.ReplicaServer.Read`: which records a batch ends at is nondeterministic; the read limits, expiry and partition-hash tests are folded into that choice and into the filter.
- Context ids that coincide: ids are distinct, not reused and never one of the client's reserved values (0 and -1 to -4). Ids below -4 occur and name live contexts.
- The flag that refuses overlapping calls of `Next`: calls are serial.
- Sharing of slice storage between a meta call and the manager, and the manager's three separate setters: lists are values and the commit is one step, so serial calls only.
- `MetaCall.EveryRun`: the new leader is a meta that answered, not necessarily the one whose response was returned, because a second answer can overwrite it before the goroutines end.
- The memory effects of goroutines in `NodeSession` and `MetaCall` are modelled on values, step by step, not by methods with frames.
- Reconnection in the Node meta session and the rate limit on meta queries: they do not touch the leader or the rounds.
- The meta query that a Node replica error triggers besides the retry.
- Python's scanner recovery (its context-lost branch is not reached) and its key successor (it does not truncate).
- Admin tools, collector sinks and table aggregation, asynchronous file I/O: simple or I/O.
- Floating-point rounding in the hotspot scores: loads are reals and the square root is any function with the defining property.
