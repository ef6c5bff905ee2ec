/** The Node client's session with the meta servers: concurrent rounds of a query share one
    notion of the leader and move it when the leader fails them. */
module MetaRounds {

  import opened Arithmetic
  import opened Common

  const MAX_RETRY_COUNTER := 5

  datatype Status = Querying | Delayed | Completed

  /** A round: the queries it may still make, the meta server it last asked (its index and the
      address of its connection), and its history. */
  datatype Round = Round(
    maxQueryCount: int, lastIndex: nat, lastAddress: string, status: Status,
    replies: nat, callbacks: nat)
  {
    /** Completed once, within the allowed number of replies. */
    ghost predicate Sound(addresses: seq<string>)
    {
      && lastIndex < |addresses| && lastAddress == addresses[lastIndex]
      && 0 <= maxQueryCount && replies + maxQueryCount == MAX_RETRY_COUNTER
      && (status.Completed? <==> callbacks == 1)
      && (!status.Completed? ==> callbacks == 0 && maxQueryCount > 0)
    }
  }

  /** What a query of a meta server can come to. */
  datatype QueryResult = Answered | NotActive | NotLeader | Unreachable | RpcUnknown

  class MetaSession {
    const addresses: seq<string>
    var curLeader: nat
    var rounds: seq<Round>

    ghost predicate Valid()
      reads this
    {
      && curLeader < |addresses|
      && forall i :: 0 <= i < |rounds| ==> rounds[i].Sound(addresses)
    }

    constructor (addresses: seq<string>)
      requires |addresses| > 0
      ensures Valid() && this.addresses == addresses && curLeader == 0 && rounds == []
    {
      this.addresses, curLeader, rounds := addresses, 0, [];
    }

    /** Starts a round at the current leader. */
    method StartRound() returns (i: nat)
      requires Valid()
      modifies this
      ensures Valid() && curLeader == old(curLeader)
      ensures i == |old(rounds)|
      ensures rounds == old(rounds) + [Round(MAX_RETRY_COUNTER, curLeader, addresses[curLeader], Querying, 0, 0)]
    {
      i := |rounds|;
      rounds := rounds + [Round(MAX_RETRY_COUNTER, curLeader, addresses[curLeader], Querying, 0, 0)];
    }

    /** Handles the end of a round's query. */
    method OnFinishQueryMeta(i: nat, result: QueryResult)
      requires Valid() && i < |rounds| && rounds[i].status.Querying?
      modifies this
      ensures Valid() && |rounds| == |old(rounds)|
      ensures forall j :: 0 <= j < |rounds| && j != i ==> rounds[j] == old(rounds)[j]
      // One more reply; the callback comes with the last one allowed, or with an answer.
      ensures rounds[i].replies == old(rounds)[i].replies + 1
      ensures rounds[i].status.Completed? <==>
                old(rounds)[i].maxQueryCount == 1 || result.Answered? || result.RpcUnknown?
      // The leader moves on by one exactly if it is the one that just failed the round: it forwarded
      // the query or could not be reached.
      ensures curLeader == (if !rounds[i].status.Completed? && (result.NotLeader? || result.Unreachable?)
                               && addresses[old(curLeader)] == old(rounds)[i].lastAddress
                            then (old(curLeader) + 1) % |addresses| else old(curLeader))
      // A round that goes on asks the leader next, after a delay if the meta was not active or could
      // not be reached.
      ensures !rounds[i].status.Completed? ==>
                && rounds[i].lastIndex == curLeader
                && rounds[i].status == if result.NotActive? || result.Unreachable? then Delayed else Querying
      ensures Distinct(addresses) && curLeader != old(curLeader) ==> old(curLeader) == old(rounds)[i].lastIndex
    {
      var round := rounds[i];
      round := round.(maxQueryCount := round.maxQueryCount - 1, replies := round.replies + 1);
      if round.maxQueryCount == 0 || result.Answered? || result.RpcUnknown? {
        rounds := rounds[i := round.(status := Completed, callbacks := round.callbacks + 1)];
        return;
      }
      var needSwitch := result.NotLeader? || result.Unreachable?;
      var needDelay := result.NotActive? || result.Unreachable?;
      if needSwitch && addresses[curLeader] == round.lastAddress {
        curLeader := (curLeader + 1) % |addresses|;
      }
      rounds := rounds[i := round.(lastIndex := curLeader, lastAddress := addresses[curLeader],
                                   status := if needDelay then Delayed else Querying)];
    }

    /** The delay of a round is over: it queries again. */
    method DelayOver(i: nat)
      requires Valid() && i < |rounds| && rounds[i].status.Delayed?
      modifies this`rounds
      ensures Valid() && rounds == old(rounds)[i := old(rounds)[i].(status := Querying)]
    {
      rounds := rounds[i := rounds[i].(status := Querying)];
    }

    /** Two rounds that the same leader fails move the leader by one step only: the second
        failure is late and leaves the new leader alone. */
    method LeaderFailsTwice(i: nat, j: nat, first: QueryResult, second: QueryResult)
      requires Valid() && Distinct(addresses) && |addresses| > 1
      requires i < |rounds| && j < |rounds| && i != j
      requires rounds[i].status.Querying? && rounds[j].status.Querying?
      requires rounds[i].lastIndex == rounds[j].lastIndex == curLeader
      requires rounds[i].maxQueryCount > 1
      requires first == NotLeader || first == Unreachable
      requires second == NotLeader || second == Unreachable
      modifies this
      ensures Valid() && curLeader == (old(curLeader) + 1) % |addresses| && |rounds| == |old(rounds)|
      ensures rounds[i].lastIndex == curLeader
      ensures !rounds[j].status.Completed? ==> rounds[j].lastIndex == curLeader
    {
      assert rounds[i].Sound(addresses) && rounds[j].Sound(addresses);
      OnFinishQueryMeta(i, first);
      assert curLeader != old(curLeader);
      OnFinishQueryMeta(j, second);
    }
  }

  /** Any course of any number of rounds: the leader stays in range and every round calls back
      once, with at most the allowed number of replies. */
  method AnyCourse(addresses: seq<string>, steps: nat) returns (s: MetaSession)
    requires |addresses| > 0
    ensures s.Valid() && s.addresses == addresses
    ensures forall i :: 0 <= i < |s.rounds| ==>
              && s.rounds[i].callbacks <= 1 && s.rounds[i].replies <= MAX_RETRY_COUNTER
              && (s.rounds[i].replies == MAX_RETRY_COUNTER ==> s.rounds[i].status.Completed?)
  {
    s := new MetaSession(addresses);
    for n := 0 to steps
      invariant s.Valid() && s.addresses == addresses && fresh(s)
    {
      var event: int := *;
      var i: int := *;
      var result: QueryResult := *;
      if event == 0 && 0 <= i < |s.rounds| && s.rounds[i].status.Querying? {
        s.OnFinishQueryMeta(i, result);
      } else if event == 1 && 0 <= i < |s.rounds| && s.rounds[i].status.Delayed? {
        s.DelayOver(i);
      } else {
        var _ := s.StartRound();
      }
    }
    forall i | 0 <= i < |s.rounds|
      ensures s.rounds[i].Sound(addresses)
    {
    }
  }

  /** The leader's index after `k` steps around the list. */
  function Around(start: nat, k: nat, n: nat): nat
    requires n > 0
  {
    (start + k) % n
  }

  /** A round that is alone and is forwarded each time asks the meta servers in turn. */
  method ForwardedRound(s: MetaSession, i: nat, forwards: nat)
    requires s.Valid() && i < |s.rounds| && s.rounds[i].status.Querying?
    requires s.rounds[i].lastIndex == s.curLeader && forwards < s.rounds[i].maxQueryCount
    modifies s
    ensures s.Valid() && |s.rounds| == |old(s.rounds)|
    ensures s.rounds[i].status.Querying? && s.rounds[i].maxQueryCount == old(s.rounds)[i].maxQueryCount - forwards
    ensures s.rounds[i].lastIndex == s.curLeader == Around(old(s.curLeader), forwards, |s.addresses|)
  {
    ghost var n := |s.addresses|;
    Stays(s.curLeader, n);
    for k := 0 to forwards
      invariant s.Valid() && |s.rounds| == |old(s.rounds)| && s.rounds[i].status.Querying?
      invariant s.rounds[i].lastIndex == s.curLeader == Around(old(s.curLeader), k, n)
      invariant s.rounds[i].maxQueryCount == old(s.rounds)[i].maxQueryCount - k
    {
      assert s.rounds[i].Sound(s.addresses);
      ghost var before := s.rounds[i];
      s.OnFinishQueryMeta(i, NotLeader);
      assert s.rounds[i].Sound(s.addresses);
      NextAround(old(s.curLeader), k, n);
    }
  }

  /** A new round that is alone and forwarded each time: with the fourth forward it still goes on,
      with the fifth it calls back. */
  method FiveReplies(s: MetaSession) returns (i: nat)
    requires s.Valid()
    modifies s
    ensures s.Valid() && i < |s.rounds| && s.rounds[i].status.Completed?
    ensures s.rounds[i].replies == 5 && s.rounds[i].callbacks == 1
    ensures s.curLeader == Around(old(s.curLeader), 4, |s.addresses|)
  {
    i := s.StartRound();
    ForwardedRound(s, i, 4);
    s.OnFinishQueryMeta(i, NotLeader);
    assert s.rounds[i].Sound(s.addresses);
  }

  lemma Stays(start: nat, n: nat)
    requires start < n
    ensures Around(start, 0, n) == start
  {
  }

  lemma NextAround(start: nat, k: nat, n: nat)
    requires n > 0
    ensures (Around(start, k, n) + 1) % n == Around(start, k + 1, n)
  {
    SuccessorModulo(start + k, n);
  }
}
