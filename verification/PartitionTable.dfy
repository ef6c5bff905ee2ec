/** The routing table of the Go client, its update from the meta server, and the redirection
    of requests to parent partitions while a table is being split. */
module PartitionTable {

  import opened Arithmetic
  import opened Common
  import opened Routing

  /** A partition's configuration; the primary is None for a nil or zero address. */
  datatype PartitionConf = PartitionConf(index: int, ballot: int, primary: Option<string>)

  /** A routing entry; without a session requests cannot be sent to it. */
  datatype ReplicaNode = ReplicaNode(ballot: int, session: Option<string>)

  datatype QueryCfgResponse = QueryCfgResponse(ok: bool, count: int, partitions: seq<Option<PartitionConf>>)

  datatype UpdateResult = Updated | Rejected | Unresolved | IndexPanic

  /** Whether one partition's configuration can be resolved. */
  predicate Resolvable(conf: Option<PartitionConf>)
  {
    conf.Some? && !(conf.value.ballot >= 0 && conf.value.primary.None?)
  }

  function NodeOf(conf: PartitionConf): ReplicaNode
  {
    ReplicaNode(conf.ballot, if conf.ballot >= 0 then conf.primary else None)
  }

  type Parts = seq<Option<ReplicaNode>>

  /** The entries and the outcome after taking configurations over one by one. */
  function TakeOver(parts: Parts, confs: seq<Option<PartitionConf>>): (Parts, UpdateResult)
    decreases |confs|
  {
    if confs == [] then (parts, Updated)
    else if !Resolvable(confs[0]) then (parts, Unresolved)
    else if !(0 <= confs[0].value.index < |parts|) then (parts, IndexPanic)
    else TakeOver(parts[confs[0].value.index := Some(NodeOf(confs[0].value))], confs[1..])
  }

  function Empty(n: nat): Parts
  {
    seq(n, _ => None)
  }

  /** The table an update starts from: a new one if the number of partitions has changed. */
  function Resized(parts: Parts, n: nat): Parts
  {
    if |parts| == n then parts else Empty(n)
  }

  datatype Route =
    | Session(index: int, address: string)
    | NilSession(index: int)
    | RoutePanic

  /** A partition without a positive ballot is served by its parent. */
  function Redirect(parts: Parts, index: nat): Option<int>
    requires index < |parts|
  {
    if parts[index].None? then None
    else if parts[index].value.ballot > 0 then Some(index)
    else Some(index - |parts| / 2)
  }

  function RouteFrom(parts: Parts, index: nat): Route
    requires index < |parts|
  {
    var target := Redirect(parts, index);
    if target.None? || target.value < 0 || parts[target.value].None? then RoutePanic
    else
      match parts[target.value].value.session
      case Some(address) => Session(target.value, address)
      case None => NilSession(target.value)
  }

  /** The partition a hash belongs to among `n`. */
  function Slot(hash: nat, n: nat): (i: nat)
    requires n > 0
    ensures i < n && (hash < n ==> i == hash)
  {
    hash % n
  }

  /** `getPartitionIndex`. */
  function PartitionIndex(parts: Parts, hash: nat): Option<int>
    requires parts != []
  {
    Redirect(parts, Slot(hash, |parts|))
  }

  /** `getPartition`. */
  function GetPartition(parts: Parts, hash: nat): Route
    requires parts != []
  {
    RouteFrom(parts, Slot(hash, |parts|))
  }

  class TableConnector {
    var parts: Parts

    /** Entries are replaced one by one; an error leaves the ones replaced so far. */
    method HandleQueryConfigResp(resp: QueryCfgResponse) returns (r: UpdateResult)
      modifies this
      ensures !resp.ok || |resp.partitions| != resp.count || !IsPartitionCountValid(resp.count) ==>
                r == Rejected && parts == old(parts)
      ensures resp.ok && |resp.partitions| == resp.count && IsPartitionCountValid(resp.count) ==>
                (parts, r) == TakeOver(Resized(old(parts), resp.count), resp.partitions)
      // A complete table stays complete exactly if it is not resized, or resized and filled.
      ensures Complete(old(parts)) ==>
                (Complete(parts) <==>
                 || r == Rejected || |old(parts)| == resp.count
                 || (r == Updated && forall i :: 0 <= i < resp.count ==> Named(resp.partitions, i)))
    {
      hide Complete, Named;
      if !resp.ok {
        return Rejected;
      }
      if resp.count == 0 || |resp.partitions| != resp.count || !IsPartitionCountValid(resp.count) {
        return Rejected;
      }
      if |resp.partitions| != |parts| {
        parts := Empty(|resp.partitions|);
      }
      ghost var start := parts;
      if Complete(old(parts)) {
        CompleteAfter(old(parts), resp.partitions);
      }
      for i := 0 to |resp.partitions|
        invariant TakeOver(parts, resp.partitions[i..]) == TakeOver(start, resp.partitions)
      {
        var conf := resp.partitions[i];
        assert resp.partitions[i..][0] == conf && resp.partitions[i..][1..] == resp.partitions[i + 1..];
        if conf.None? || (conf.value.ballot >= 0 && conf.value.primary.None?) {
          return Unresolved;
        }
        var s := if conf.value.ballot >= 0 then conf.value.primary else None;
        if !(0 <= conf.value.index < |parts|) {
          return IndexPanic;
        }
        parts := parts[conf.value.index := Some(ReplicaNode(conf.value.ballot, s))];
      }
      return Updated;
    }
  }

  /** Every entry is set and has a session exactly if its ballot is not negative. */
  ghost predicate Complete(parts: Parts)
  {
    forall i :: 0 <= i < |parts| ==> EntryComplete(parts[i])
  }

  ghost predicate EntryComplete(node: Option<ReplicaNode>)
  {
    node.Some? && (node.value.session.Some? <==> node.value.ballot >= 0)
  }

  ghost predicate Named(confs: seq<Option<PartitionConf>>, i: int)
  {
    exists k :: 0 <= k < |confs| && confs[k].Some? && confs[k].value.index == i
  }

  lemma {:induction false} TakeOverEntries(parts: Parts, confs: seq<Option<PartitionConf>>, i: int)
    requires 0 <= i < |parts|
    ensures |TakeOver(parts, confs).0| == |parts|
    ensures TakeOver(parts, confs).1 == Updated && (Named(confs, i) || EntryComplete(parts[i])) ==>
              EntryComplete(TakeOver(parts, confs).0[i])
    decreases |confs|
  {
    if confs != [] && Resolvable(confs[0]) && 0 <= confs[0].value.index < |parts| {
      var parts' := parts[confs[0].value.index := Some(NodeOf(confs[0].value))];
      TakeOverEntries(parts', confs[1..], i);
      if Named(confs, i) && confs[0].value.index != i {
        var k :| 0 <= k < |confs| && confs[k].Some? && confs[k].value.index == i;
        assert confs[1..][k - 1] == confs[k];
      }
    }
  }

  lemma {:induction false} TakeOverLength(parts: Parts, confs: seq<Option<PartitionConf>>)
    ensures |TakeOver(parts, confs).0| == |parts|
    decreases |confs|
  {
    if confs != [] && Resolvable(confs[0]) && 0 <= confs[0].value.index < |parts| {
      TakeOverLength(parts[confs[0].value.index := Some(NodeOf(confs[0].value))], confs[1..]);
    }
  }

  /** A successful update whose configurations name every index leaves a complete table. */
  lemma UpdateCompletes(start: Parts, confs: seq<Option<PartitionConf>>)
    requires TakeOver(start, confs).1 == Updated
    requires forall i :: 0 <= i < |start| ==> Named(confs, i) || EntryComplete(start[i])
    ensures Complete(TakeOver(start, confs).0) && |TakeOver(start, confs).0| == |start|
  {
    var parts := TakeOver(start, confs).0;
    TakeOverLength(start, confs);
    forall i | 0 <= i < |parts|
      ensures EntryComplete(parts[i])
    {
      TakeOverEntries(start, confs, i);
    }
  }

  /** Whether a configuration is fit for a table of `n` partitions: a partition with a ballot from
      0 on needs a primary. */
  ghost predicate Fits(conf: Option<PartitionConf>, n: nat)
  {
    conf.Some? && (conf.value.ballot >= 0 ==> conf.value.primary.Some?) && 0 <= conf.value.index < n
  }

  /** How an update ends: well exactly if every configuration fits; otherwise it stops at the first
      that does not, and those before it have been taken over. */
  lemma {:induction false} OutcomeExactly(parts: Parts, confs: seq<Option<PartitionConf>>)
    ensures TakeOver(parts, confs).1 == Updated <==> forall k :: 0 <= k < |confs| ==> Fits(confs[k], |parts|)
    ensures forall k :: 0 <= k < |confs| && !Fits(confs[k], |parts|) && (forall j :: 0 <= j < k ==> Fits(confs[j], |parts|)) ==>
              TakeOver(parts, confs)
              == (TakeOver(parts, confs[..k]).0,
                  if confs[k].None? || (confs[k].value.ballot >= 0 && confs[k].value.primary.None?) then Unresolved else IndexPanic)
    decreases |confs|
  {
    if confs != [] && Fits(confs[0], |parts|) {
      var parts' := parts[confs[0].value.index := Some(NodeOf(confs[0].value))];
      var tail := confs[1..];
      OutcomeExactly(parts', tail);
      assert forall k :: 0 <= k < |tail| ==> tail[k] == confs[k + 1];
      forall k | 0 <= k < |confs| && !Fits(confs[k], |parts|) && (forall j :: 0 <= j < k ==> Fits(confs[j], |parts|))
        ensures TakeOver(parts, confs)
             == (TakeOver(parts, confs[..k]).0,
                 if confs[k].None? || (confs[k].value.ballot >= 0 && confs[k].value.primary.None?) then Unresolved else IndexPanic)
      {
        assert tail[k - 1] == confs[k] && confs[..k][1..] == tail[..k - 1] && confs[..k][0] == confs[0];
      }
    }
  }

  /** Configuration `k` is the last to name partition `i`. */
  ghost predicate NamedLast(confs: seq<Option<PartitionConf>>, i: int, k: int)
  {
    && 0 <= k < |confs| && confs[k].Some? && confs[k].value.index == i
    && forall j :: k < j < |confs| && confs[j].Some? ==> confs[j].value.index != i
  }

  /** After an update an entry holds the ballot of the last configuration that names it, with the
      session of that configuration's primary unless the ballot is negative. */
  lemma {:induction false} LastConfigurationWins(parts: Parts, confs: seq<Option<PartitionConf>>, i: nat, k: nat)
    requires i < |parts| && TakeOver(parts, confs).1 == Updated && NamedLast(confs, i, k)
    ensures |TakeOver(parts, confs).0| == |parts|
    ensures var conf, node := confs[k].value, TakeOver(parts, confs).0[i];
            && node.Some? && node.value.ballot == conf.ballot
            && (conf.ballot >= 0 ==> conf.primary.Some?)
            && node.value.session == if conf.ballot < 0 then None else conf.primary
    decreases |confs|
  {
    var parts' := parts[confs[0].value.index := Some(NodeOf(confs[0].value))];
    var tail := confs[1..];
    assert forall j :: 0 <= j < |tail| ==> tail[j] == confs[j + 1];
    if k > 0 {
      LastConfigurationWins(parts', tail, i, k - 1);
    } else {
      TakeOverUnnamed(parts', tail, i);
    }
  }

  /** Where a hash is sent after an update: to the primary of its partition, or, while that one has
      no positive ballot, to that of the partition it had before the split. `own` and `parent` are
      the last configurations to name the two. */
  lemma HashReachesPrimary(start: Parts, confs: seq<Option<PartitionConf>>, hash: nat, own: nat, parent: nat)
    requires |start| == |confs| >= 2 && |confs| % 2 == 0 && TakeOver(start, confs).1 == Updated
    requires NamedLast(confs, hash % |confs|, own) && NamedLast(confs, hash % (|confs| / 2), parent)
    ensures |TakeOver(start, confs).0| == |confs|
    ensures var n, o, p := |confs|, confs[own].value, confs[parent].value;
            var route := GetPartition(TakeOver(start, confs).0, hash);
            if o.ballot > 0 then o.primary.Some? && route == Session(hash % n, o.primary.value)
            else if hash % n < n / 2 then route == RoutePanic
            else if p.ballot >= 0 then p.primary.Some? && route == Session(hash % (n / 2), p.primary.value)
            else route == NilSession(hash % (n / 2))
  {
    hide TakeOver;
    var parts, n := TakeOver(start, confs).0, |confs|;
    LastConfigurationWins(start, confs, hash % n, own);
    LastConfigurationWins(start, confs, hash % (n / 2), parent);
    if confs[own].value.ballot <= 0 && hash % n >= n / 2 {
      ChildServedByParent(parts, hash);
    }
  }

  lemma IndexReachesASession(parts: Parts, index: nat)
    requires Complete(parts) && index < |parts| && |parts| % 2 == 0
    requires forall i :: 0 <= i < |parts| / 2 ==> parts[i].value.ballot > 0
    ensures RouteFrom(parts, index).Session?
  {
    assert EntryComplete(parts[index]);
    if parts[index].value.ballot <= 0 {
      assert EntryComplete(parts[index - |parts| / 2]);
    }
  }

  /** In a complete table of even size every hash reaches a session exactly if all partitions
      of the lower half, the parents of a split, have positive ballots. */
  lemma EveryHashReachesASession(parts: Parts)
    requires Complete(parts) && |parts| > 0 && |parts| % 2 == 0
    ensures (forall hash: nat :: GetPartition(parts, hash).Session?)
       <==> (forall i :: 0 <= i < |parts| / 2 ==> parts[i].value.ballot > 0)
  {
    hide Slot;
    if forall i :: 0 <= i < |parts| / 2 ==> parts[i].value.ballot > 0 {
      forall hash: nat
        ensures GetPartition(parts, hash).Session?
      {
        IndexReachesASession(parts, Slot(hash, |parts|));
      }
    } else {
      var i: nat :| i < |parts| / 2 && parts[i].value.ballot <= 0;
      assert Redirect(parts, i).value < 0;
      assert !GetPartition(parts, i).Session?;
    }
  }

  /** After a successful update naming every partition, every hash reaches a session exactly
      if all partitions of the lower half have positive ballots. */
  lemma UpdatedTableRoutes(start: Parts, confs: seq<Option<PartitionConf>>)
    requires |start| == |confs| && IsPartitionCountValid(|confs|)
    requires TakeOver(start, confs).1 == Updated
    requires forall i :: 0 <= i < |confs| ==> Named(confs, i)
    ensures var parts := TakeOver(start, confs).0;
            && Complete(parts) && |parts| == |confs|
            && ((forall hash: nat :: GetPartition(parts, hash).Session?)
                <==> (forall i :: 0 <= i < |parts| / 2 ==> parts[i].value.ballot > 0))
  {
    hide TakeOver, Named, Complete, GetPartition, And;
    ValidCountIsEven(|confs|);
    UpdateCompletes(start, confs);
    EveryHashReachesASession(TakeOver(start, confs).0);
  }

  /** Where the Python and the Node client send a request for partition `index`: to its parent
      on a negative ballot. */
  function OtherRedirect(ballots: seq<int>, index: nat): int
    requires index < |ballots|
  {
    if ballots[index] < 0 then index - |ballots| / 2 else index
  }

  /** The Go client, which redirects from ballot 0 down, and the others choose the same
      partition exactly if the ballot is not zero. */
  lemma RedirectionsDiffer(parts: Parts, ballots: seq<int>, index: nat)
    requires index < |parts| == |ballots| && |parts| >= 2
    requires forall i :: 0 <= i < |parts| ==> parts[i].Some? && parts[i].value.ballot == ballots[i]
    ensures Redirect(parts, index) == Some(OtherRedirect(ballots, index)) <==> ballots[index] != 0
  {
  }

  /** A child that is not ready is served by the partition the hash had before the split. */
  lemma ChildServedByParent(parts: Parts, hash: nat)
    requires |parts| > 0 && |parts| % 2 == 0
    requires var i := hash % |parts|; i >= |parts| / 2 && parts[i].Some? && parts[i].value.ballot <= 0
    ensures PartitionIndex(parts, hash) == Some(hash % (|parts| / 2))
  {
    var n, h := |parts|, |parts| / 2;
    var q, r := hash / n, hash % n;
    assert hash == n * q + r == h * (2 * q + 1) + (r - h);
    ModuloUnique(hash, h, 2 * q + 1, r - h);
  }

  /** The number of entries that are set. */
  ghost function Filled(parts: Parts): nat
  {
    if parts == [] then 0 else Filled(parts[1..]) + if parts[0].Some? then 1 else 0
  }

  lemma {:induction false} FilledUpdate(parts: Parts, i: nat, node: Option<ReplicaNode>)
    requires i < |parts|
    ensures Filled(parts[i := node]) <= Filled(parts) + 1
  {
    if i > 0 {
      assert parts[i := node][1..] == parts[1..][i - 1 := node];
      FilledUpdate(parts[1..], i - 1, node);
    } else {
      assert parts[i := node][1..] == parts[1..];
    }
  }

  lemma {:induction false} FilledBounds(parts: Parts)
    ensures (forall i :: 0 <= i < |parts| ==> parts[i].Some?) ==> Filled(parts) == |parts|
    ensures (forall i :: 0 <= i < |parts| ==> parts[i].None?) ==> Filled(parts) == 0
  {
    if parts != [] {
      FilledBounds(parts[1..]);
      assert forall i :: 0 <= i < |parts[1..]| ==> parts[1..][i] == parts[i + 1];
    }
  }

  lemma {:induction false} TakeOverFills(parts: Parts, confs: seq<Option<PartitionConf>>)
    requires TakeOver(parts, confs).1 != Updated
    ensures |TakeOver(parts, confs).0| == |parts|
    ensures Filled(TakeOver(parts, confs).0) < Filled(parts) + |confs|
    decreases |confs|
  {
    if Resolvable(confs[0]) && 0 <= confs[0].value.index < |parts| {
      var i, node := confs[0].value.index, Some(NodeOf(confs[0].value));
      FilledUpdate(parts, i, node);
      TakeOverFills(parts[i := node], confs[1..]);
    }
  }

  /** An update that changes the partition count and then fails leaves the connector with a
      hash for which routing panics. */
  lemma FailedResizeBreaksRouting(confs: seq<Option<PartitionConf>>) returns (hash: nat)
    requires confs != [] && TakeOver(Empty(|confs|), confs).1 != Updated
    ensures |TakeOver(Empty(|confs|), confs).0| == |confs|
    ensures hash < |confs| && TakeOver(Empty(|confs|), confs).0[hash].None?
    ensures GetPartition(TakeOver(Empty(|confs|), confs).0, hash) == RoutePanic
  {
    hide Slot, TakeOver, Filled;
    var start := Empty(|confs|);
    var parts := TakeOver(start, confs).0;
    TakeOverFills(start, confs);
    FilledBounds(start);
    FilledBounds(parts);
    hash :| hash < |parts| && parts[hash].None?;
  }

  /** Taking configurations over keeps a complete table complete, whatever the outcome. */
  lemma {:induction false} TakeOverKeepsComplete(parts: Parts, confs: seq<Option<PartitionConf>>)
    requires Complete(parts)
    ensures Complete(TakeOver(parts, confs).0)
    decreases |confs|
  {
    if confs != [] && Resolvable(confs[0]) && 0 <= confs[0].value.index < |parts| {
      TakeOverKeepsComplete(parts[confs[0].value.index := Some(NodeOf(confs[0].value))], confs[1..]);
    }
  }

  lemma NamedInTail(confs: seq<Option<PartitionConf>>, i: int)
    requires confs != [] && Named(confs[1..], i)
    ensures Named(confs, i)
  {
    var k :| 0 <= k < |confs[1..]| && confs[1..][k].Some? && confs[1..][k].value.index == i;
    assert confs[k + 1] == confs[1..][k];
  }

  /** An entry that no configuration names stays as it is. */
  lemma {:induction false} TakeOverUnnamed(parts: Parts, confs: seq<Option<PartitionConf>>, i: nat)
    requires i < |parts| && !Named(confs, i)
    ensures |TakeOver(parts, confs).0| == |parts| && TakeOver(parts, confs).0[i] == parts[i]
    decreases |confs|
  {
    if confs != [] && Resolvable(confs[0]) && 0 <= confs[0].value.index < |parts| {
      assert confs[0].value.index != i;
      if Named(confs[1..], i) {
        NamedInTail(confs, i);
      }
      TakeOverUnnamed(parts[confs[0].value.index := Some(NodeOf(confs[0].value))], confs[1..], i);
    }
  }

  /** When a complete table is complete after an update: exactly if its size is unchanged,
      whatever the outcome, or the update succeeded and named every partition. */
  lemma CompleteAfter(old': Parts, confs: seq<Option<PartitionConf>>)
    requires Complete(old') && confs != []
    ensures var (parts, r) := TakeOver(Resized(old', |confs|), confs);
            Complete(parts) <==>
            |old'| == |confs| || (r == Updated && forall i :: 0 <= i < |confs| ==> Named(confs, i))
  {
    hide TakeOver, Named;
    var start := Resized(old', |confs|);
    var (parts, r) := TakeOver(start, confs);
    TakeOverLength(start, confs);
    if |old'| == |confs| {
      TakeOverKeepsComplete(start, confs);
    } else if r != Updated {
      var hash := FailedResizeBreaksRouting(confs);
      assert !EntryComplete(parts[hash]);
    } else if i: nat :| i < |confs| && !Named(confs, i) {
      TakeOverUnnamed(start, confs, i);
      assert !EntryComplete(parts[i]);
    } else {
      UpdateCompletes(start, confs);
    }
  }

  /** A table of four partitions and a response with two, the second missing: the update fails,
      and requests whose hash is odd panic from then on. */
  lemma NilConfigurationBreaksRouting(node: ReplicaNode, address: string)
    requires node.ballot > 0 && node.session == Some(address)
    ensures var old' := [Some(node), Some(node), Some(node), Some(node)];
            var confs := [Some(PartitionConf(0, 1, Some(address))), None];
            var (parts, r) := TakeOver(Resized(old', 2), confs);
            && Complete(old') && (forall hash: nat :: GetPartition(old', hash).Session?)
            && r == Unresolved && !Complete(parts) && GetPartition(parts, 1) == RoutePanic
  {
    var old' := [Some(node), Some(node), Some(node), Some(node)];
    var confs := [Some(PartitionConf(0, 1, Some(address))), None];
    assert forall i :: 0 <= i < |old'| ==> old'[i] == Some(node);
    EveryHashReachesASession(old');
    var first := Empty(2)[0 := Some(NodeOf(confs[0].value))];
    assert Resolvable(confs[0]) && confs[1..] == [None];
    assert TakeOver(first, [None]) == (first, Unresolved);
    assert TakeOver(Resized(old', 2), confs) == (first, Unresolved);
    assert !EntryComplete(first[1]);
  }
}
