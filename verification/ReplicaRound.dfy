/** One user request in the Node client: attempts over a connection, each with a timer, retried
    after a delay until one succeeds or the time budget is spent. */
module ReplicaRound {

  datatype Errno = ErrUnset | ErrOk | ErrUnknown | ErrTimeout | ErrSessionReset | ErrOther(code: int)

  /** A request on the connection. */
  datatype Request = Request(done: bool, timer: bool, registered: bool, start: real, budget: real)

  /** The round as a value: the operator's fields, the requests made so far, whether a retry is
      scheduled, and the calls of the user's callback. */
  datatype Round = Round(
    initial: real, timeout: real, errno: Errno, requests: seq<Request>,
    retryScheduled: bool, results: seq<Errno>,
    /** History: time used by finished attempts, delays granted to retries, and how much later
        than that the retries came; the time the round began, and the time up to which the
        books reach: the start of an attempt, the end of the last one, or the time a retry is
        due. */
    used: real, delays: real, late: real, begun: real, mark: real)
  {
    function Last(): Request
      requires requests != []
    {
      requests[|requests| - 1]
    }

    predicate InFlight()
    {
      requests != [] && !Last().done
    }

    /** Exactly one thing is outstanding: an attempt, a retry, or nothing after the callback. */
    ghost predicate OneOutstanding()
    {
      && (results == [] || results == [errno])
      && (InFlight() ==> !retryScheduled && results == [])
      && (retryScheduled ==> results == [])
      && (InFlight() || retryScheduled || results != [])
    }

    ghost predicate RequestSound(k: nat, now: real)
      requires k < |requests|
    {
      var r := requests[k];
      && (r.registered <==> !r.done)
      && (r.timer <==> !r.done && r.budget > 0.0)
      && (k < |requests| - 1 ==> r.done)
      && r.start <= now
      && (if k == 0 then r.budget == initial else 0.0 < r.budget <= requests[k - 1].budget - 1.0)
      && r.budget <= initial - k as real
    }

    /** The budget is fit for a retry. */
    ghost predicate RetryFits()
    {
      requests != [] && 0.0 < timeout <= Last().budget - 1.0
    }

    /** No time is lost, and every retry takes at least one unit off the budget. */
    ghost predicate Balanced()
    {
      && Booked()
      && (requests != [] ==> timeout <= Last().budget)
      && (InFlight() ==> timeout == Last().budget && mark == Last().start)
      && (retryScheduled ==> RetryFits())
    }

    /** The budget and the time spent add up to what was granted, and the time spent is time that
        has passed. */
    ghost predicate Booked()
    {
      && timeout + used + delays == initial
      && begun + used + delays + late == mark
      && used >= 0.0 && delays >= 0.0 && late >= 0.0
    }

    ghost predicate Valid(now: real)
    {
      && requests != []
      && OneOutstanding() && Balanced()
      && (results != [] ==> mark <= now && (errno != ErrOk ==> timeout <= 1.0))
      && forall k :: 0 <= k < |requests| ==> RequestSound(k, now)
    }

    /** Nothing outstanding and the callback still to come: the moment between two attempts. */
    ghost predicate Idle(now: real)
    {
      && !retryScheduled && results == [] && !InFlight()
      && (if requests == [] then timeout == initial else timeout <= Last().budget)
      && Booked() && (requests == [] ==> mark == now)
      && forall k :: 0 <= k < |requests| ==> RequestSound(k, now)
    }

    /** A new attempt with the whole remaining budget. */
    function Send(now: real): Round
    {
      this.(late := late + (now - mark), mark := now,
            requests := requests + [Request(false, timeout > 0.0, true, now, timeout)])
    }

    /** Attempt `k` ends with `code`; its time is taken off the budget. */
    function Finish(k: nat, now: real, code: Errno): Round
      requires k < |requests|
    {
      var spent := now - requests[k].start;
      this.(errno := code, timeout := timeout - spent, used := used + spent, mark := now,
            requests := requests[k := requests[k].(done := true, timer := false, registered := false)])
    }

    /** Success goes to the callback; an error is retried while the budget lasts. */
    function Settle(): Round
    {
      if errno == ErrOk then this.(results := results + [ErrOk])
      else if timeout - Delay(timeout) > 0.0 then
        this.(timeout := timeout - Delay(timeout), delays := delays + Delay(timeout), mark := mark + Delay(timeout),
              retryScheduled := true)
      else
        var code := if errno == ErrUnknown then ErrTimeout else errno;
        this.(errno := code, results := results + [code])
    }
  }

  /** The retry delay. */
  function Delay(timeout: real): real
  {
    if timeout > 3.0 then timeout / 3.0 else 1.0
  }

  lemma SendKeeps(r: Round, now: real)
    requires r.Idle(now) && r.mark <= now
    requires r.requests != [] ==> r.RetryFits()
    ensures r.Send(now).Valid(now)
  {
    var r' := r.Send(now);
    if r.requests != [] {
      assert r.RequestSound(|r.requests| - 1, now);
    }
    forall k | 0 <= k < |r'.requests|
      ensures r'.RequestSound(k, now)
    {
      if k < |r.requests| {
        assert r.RequestSound(k, now);
      }
    }
  }

  lemma FinishKeeps(r: Round, k: nat, now: real, code: Errno)
    requires r.Valid(now) && k < |r.requests| && !r.requests[k].done
    ensures k == |r.requests| - 1 && r.Finish(k, now, code).Idle(now) && r.Finish(k, now, code).mark == now
  {
    var r' := r.Finish(k, now, code);
    assert r.RequestSound(k, now);
    forall j | 0 <= j < |r'.requests|
      ensures r'.RequestSound(j, now)
    {
      assert r.RequestSound(j, now);
    }
  }

  lemma SettleKeeps(r: Round, now: real)
    requires r.Idle(now) && r.requests != [] && r.mark <= now
    ensures r.Settle().Valid(now)
  {
    var r' := r.Settle();
    forall j | 0 <= j < |r'.requests|
      ensures r'.RequestSound(j, now)
    {
      assert r.RequestSound(j, now);
    }
  }

  lemma TimePasses(r: Round, now: real, later: real)
    requires r.Valid(now) && now <= later
    ensures r.Valid(later)
  {
    forall j | 0 <= j < |r.requests|
      ensures r.RequestSound(j, later)
    {
      assert r.RequestSound(j, now);
    }
  }

  /** What holds at every moment of a round: the callback is called at most once, with the error
      code of the last attempt; budget, used time and delays add up to the initial timeout, and
      to the time that has passed; an error comes at most one unit before the initial timeout is
      over, and any result of an attempt within its budget by then, if no retry came late; every
      retry has a positive budget, at least one unit below that of the attempt before; there are
      fewer retries than units in the initial timeout; and a round without a result has a timer
      running, except for a first attempt sent without any budget. */
  lemma RoundFacts(r: Round, now: real)
    requires r.Valid(now)
    ensures r.results == [] || r.results == [r.errno]
    ensures r.timeout + r.used + r.delays == r.initial
    ensures r.mark - r.begun == r.initial - r.timeout + r.late
    ensures r.InFlight() ==> r.mark == r.Last().start && r.timeout == r.Last().budget
    ensures r.results != [] && r.errno != ErrOk ==> r.initial - 1.0 <= r.mark - r.begun
    ensures r.results != [] && r.timeout >= 0.0 ==> r.mark - r.begun <= r.initial + r.late
    ensures forall k :: 0 < k < |r.requests| ==> 0.0 < r.requests[k].budget <= r.requests[k - 1].budget - 1.0
    ensures |r.requests| > 1 ==> (|r.requests| - 1) as real < r.initial
    ensures r.results == [] ==>
              r.retryScheduled || (r.InFlight() && (r.Last().timer || (|r.requests| == 1 && r.initial <= 0.0)))
  {
    assert r.RequestSound(|r.requests| - 1, now);
    forall k | 0 < k < |r.requests|
      ensures 0.0 < r.requests[k].budget <= r.requests[k - 1].budget - 1.0
    {
      assert r.RequestSound(k, now);
    }
    assert r.RequestSound(0, now);
  }

  /** What an attempt that has ended leads to. `left` is what is left of its budget: a success or
      an error with no more than one unit left goes to the callback, and any other error to a
      retry, after a third of what is left but at least one unit. */
  lemma AttemptEnds(r: Round, k: nat, now: real, code: Errno)
    requires r.Valid(now) && k < |r.requests| && !r.requests[k].done
    ensures var r', left := r.Finish(k, now, code).Settle(), r.requests[k].budget - (now - r.requests[k].start);
            if code == ErrOk || left <= 1.0 then
              r'.results == [Reported(code)] && !r'.retryScheduled && r'.mark == now
            else
              && r'.results == [] && r'.retryScheduled
              && r'.timeout == left - (r'.mark - now) > 0.0
              && (if left > 3.0 then 3.0 * (r'.mark - now) == left else r'.mark - now == 1.0)
  {
    assert r.RequestSound(k, now);
  }

  lemma RegisteredIffLive(r: Round, now: real, k: nat)
    requires r.Valid(now) && k < |r.requests|
    ensures r.requests[k].registered <==> !r.requests[k].done
    ensures r.requests[k].timer ==> !r.requests[k].done
  {
    assert r.RequestSound(k, now);
  }

  /** The session with the round's connection. */
  class ReplicaSession {
    var closed: bool
    var round: Round
    var clock: real

    ghost predicate Valid()
      reads this
    {
      round.Valid(clock)
    }

    constructor (timeout: real, now: real, closed: bool)
      ensures Valid() && round.initial == timeout && round.begun == now && clock == now
      ensures round.results != [ErrOk]
      ensures this.closed == closed && round.used == 0.0 && Tells(round, now, ErrSessionReset) && (!closed ==> round.InFlight())
    {
      this.closed, clock := closed, now;
      round := Round(timeout, timeout, ErrUnset, [], false, [], 0.0, 0.0, 0.0, now, now);
      new;
      SendTells(round, now, closed);
      Operate();
    }

    /** Sends the operator on the connection; on a closed one the request fails at once. */
    method Operate()
      requires round.Idle(clock) && round.mark <= clock
      requires round.requests != [] ==> round.RetryFits()
      modifies this`round
      ensures Valid() && round.initial == old(round.initial)
      ensures round == var sent := old(round).Send(clock);
                       if closed then sent.Finish(|sent.requests| - 1, clock, ErrSessionReset).Settle() else sent
    {
      hide Round.Valid, Round.Idle;
      SendKeeps(round, clock);
      round := round.(requests := round.requests + [Request(false, round.timeout > 0.0, true, clock, round.timeout)],
                      late := round.late + (clock - round.mark), mark := clock);
      if closed {
        CleanupRequests();
      }
    }

    /** Fails every request registered on the connection. */
    method CleanupRequests()
      requires Valid()
      modifies this`round
      ensures Valid() && round.initial == old(round.initial)
      ensures round == if old(round).InFlight() then
                         old(round).Finish(|old(round).requests| - 1, clock, ErrSessionReset).Settle()
                       else old(round)
    {
      var snapshot := round.requests;
      for k := 0 to |snapshot|
        invariant Valid() && |round.requests| == |snapshot|
        invariant k < |snapshot| ==> round == old(round)
        invariant k == |snapshot| ==>
                    round == if old(round).InFlight() then
                               old(round).Finish(|snapshot| - 1, clock, ErrSessionReset).Settle()
                             else old(round)
      {
        assert round.RequestSound(k, clock);
        if snapshot[k].registered {
          SetException(k, ErrSessionReset);
        }
      }
    }

    /** Only a request that is registered or has its timer running is failed. */
    method SetException(k: nat, code: Errno)
      requires Valid() && k < |round.requests| && !round.requests[k].done
      modifies this`round
      ensures Valid() && round == old(round).Finish(k, clock, code).Settle()
    {
      ErrnoKeeps(round, clock, k, code);
      round := round.(errno := code);
      CallComplete(k);
    }

    /** Ends a request once: a request that is done stays as it is. */
    method CallComplete(k: nat)
      requires Valid() && k < |round.requests|
      modifies this`round
      ensures Valid()
      ensures round == if old(round).requests[k].done then old(round) else old(round).Finish(k, clock, old(round).errno).Settle()
    {
      hide Round.Idle;
      assert round.RequestSound(k, clock);
      var request := round.requests[k];
      if request.done {
        return;
      }
      FinishKeeps(round, k, clock, round.errno);
      var spent := clock - request.start;
      round := round.(requests := round.requests[k := request.(done := true, timer := false, registered := false)],
                      timeout := round.timeout - spent, used := round.used + spent, mark := clock);
      OnRpcReply();
    }

    method OnRpcReply()
      requires round.Idle(clock) && round.requests != [] && round.mark <= clock
      modifies this`round
      ensures Valid() && round == old(round).Settle()
    {
      hide Round.Valid, Round.Idle;
      SettleKeeps(round, clock);
      if round.errno == ErrOk {
        round := round.(results := round.results + [ErrOk]);
      } else {
        TryRetry();
      }
    }

    method TryRetry()
      requires round.errno != ErrOk
      modifies this`round
      ensures round == old(round).Settle()
    {
      var delayTime := if round.timeout > 3.0 then round.timeout / 3.0 else 1.0;
      if round.timeout - delayTime > 0.0 {
        round := round.(timeout := round.timeout - delayTime, delays := round.delays + delayTime,
                        mark := round.mark + delayTime, retryScheduled := true);
      } else if round.errno == ErrUnknown {
        round := round.(errno := ErrTimeout, results := round.results + [ErrTimeout]);
      } else {
        round := round.(results := round.results + [round.errno]);
      }
    }

    /** The timer of a request fires. */
    method HandleTimeout(k: nat, now: real)
      requires Valid() && clock <= now && k < |round.requests| && round.requests[k].timer
      modifies this
      ensures Valid() && clock == now && closed == old(closed)
      ensures round == old(round).Finish(k, now, ErrTimeout).Settle()
    {
      hide Round.Valid, Round.Idle;
      TimePasses(round, clock, now);
      RegisteredIffLive(round, clock, k);
      clock := now;
      SetException(k, ErrTimeout);
    }

    /** A reply arrives; one to a request that is not registered any more is dropped. */
    method OnReply(k: nat, code: Errno, now: real)
      requires Valid() && clock <= now
      modifies this
      ensures Valid() && clock == now && closed == old(closed)
      ensures round == if k < |old(round).requests| && !old(round).requests[k].done then old(round).Finish(k, now, code).Settle()
                       else old(round)
    {
      hide Round.Valid, Round.Idle;
      TimePasses(round, clock, now);
      clock := now;
      if k < |round.requests| {
        RegisteredIffLive(round, clock, k);
        if round.requests[k].registered {
          ErrnoKeeps(round, clock, k, code);
          round := round.(errno := code);
          CallComplete(k);
        }
      }
    }

    /** The connection is closed or fails. */
    method HandleClose(now: real)
      requires Valid() && clock <= now
      modifies this
      ensures Valid() && clock == now && closed
      ensures round == if old(round).InFlight() then
                         old(round).Finish(|old(round).requests| - 1, now, ErrSessionReset).Settle()
                       else old(round)
    {
      TimePasses(round, clock, now);
      clock, closed := now, true;
      CleanupRequests();
    }

    /** The delay before a retry is over. */
    method Retry(now: real)
      requires Valid() && clock <= now && round.retryScheduled && round.mark <= now
      modifies this
      ensures Valid() && clock == now && closed == old(closed)
      ensures round == var sent := old(round).(retryScheduled := false).Send(now);
                       if closed then sent.Finish(|sent.requests| - 1, now, ErrSessionReset).Settle() else sent
    {
      TimePasses(round, clock, now);
      RetryIdle(round, now);
      clock := now;
      round := round.(retryScheduled := false);
      Operate();
    }
  }

  lemma ErrnoKeeps(r: Round, now: real, k: nat, code: Errno)
    requires r.Valid(now) && k < |r.requests| && !r.requests[k].done
    ensures r.(errno := code).Valid(now)
  {
    var r' := r.(errno := code);
    assert r.RequestSound(k, now);
    forall j | 0 <= j < |r'.requests|
      ensures r'.RequestSound(j, now)
    {
      assert r.RequestSound(j, now);
    }
  }

  lemma RetryIdle(r: Round, now: real)
    requires r.Valid(now) && r.retryScheduled
    ensures r.(retryScheduled := false).Idle(now)
    ensures r.(retryScheduled := false).RetryFits()
  {
    var r' := r.(retryScheduled := false);
    forall j | 0 <= j < |r'.requests|
      ensures r'.RequestSound(j, now)
    {
      assert r.RequestSound(j, now);
    }
  }

  /** The code the callback is called with. */
  function Reported(code: Errno): Errno
  {
    if code == ErrUnknown then ErrTimeout else code
  }

  /** A result came at the time `ended`, and tells how the last attempt ended. */
  ghost predicate Tells(r: Round, ended: real, code: Errno)
  {
    r.results != [] ==> r.mark == ended && r.results == [Reported(code)]
  }

  lemma EndTells(r: Round, k: nat, now: real, code: Errno)
    requires r.Valid(now) && k < |r.requests| && !r.requests[k].done
    ensures var r' := r.Finish(k, now, code).Settle();
            && Tells(r', now, code) && r'.begun == r.begun && r'.initial == r.initial
            && r'.used == r.used + (now - r.requests[k].start)
            && r.results == [] && (r'.results == [ErrOk] <==> code == ErrOk)
  {
    hide Round.Valid;
    FlightEnds(r, now);
    AttemptEnds(r, k, now, code);
  }

  /** An attempt sent on a closed connection ends at once, on an open one it is in flight. */
  lemma SendTells(r: Round, now: real, closed: bool)
    requires r.Idle(now) && r.mark <= now
    requires r.requests != [] ==> r.RetryFits()
    ensures var sent := r.Send(now);
            var r' := if closed then sent.Finish(|sent.requests| - 1, now, ErrSessionReset).Settle() else sent;
            && Tells(r', now, ErrSessionReset) && r'.begun == r.begun && r'.initial == r.initial
            && r'.used == r.used && r'.results != [ErrOk]
  {
    hide Round.Valid;
    SendKeeps(r, now);
    if closed {
      EndTells(r.Send(now), |r.requests|, now, ErrSessionReset);
    } else {
      assert r.Send(now).results == [];
    }
  }

  lemma FlightEnds(r: Round, now: real)
    requires r.Valid(now)
    ensures r.InFlight() ==> r.results == []
    ensures forall k :: 0 <= k < |r.requests| && (r.requests[k].timer || !r.requests[k].done) ==> !r.requests[k].done && r.InFlight()
  {
    forall k | 0 <= k < |r.requests| && (r.requests[k].timer || !r.requests[k].done)
      ensures !r.requests[k].done && r.InFlight()
    {
      assert r.RequestSound(k, now);
    }
  }

  /** Any course of a round: replies, timeouts, closed and reopened connections, in any order; a
      retry comes when it is due or later. `begun` is the time of the request, `ended` that of
      the callback, `code` the error code the last attempt ended with, `spans` the time from the
      start to the end of all attempts that have ended, and `okReply` tells whether a success
      reply reached an attempt that was waiting for one. */
  method AnyCourse(timeout: real, steps: nat)
    returns (s: ReplicaSession, begun: real, ended: real, code: Errno, spans: real, okReply: bool)
    ensures s.Valid() && s.round.initial == timeout
    ensures |s.round.results| <= 1 && (s.round.results == [ErrOk] <==> okReply)
    ensures s.round.results != [] ==> s.round.results == [Reported(code)]
    ensures s.round.results != [] && s.round.results != [ErrOk] ==> timeout - 1.0 <= ended - begun
    ensures s.round.timeout + spans + s.round.delays == timeout
    ensures |s.round.requests| > 1 ==> (|s.round.requests| - 1) as real < timeout
  {
    hide Round.Valid, Round.Idle, Reported, Tells, Round.Finish, Round.Settle, Round.Send;
    begun := *;
    var closed: bool := *;
    s := new ReplicaSession(timeout, begun, closed);
    ended, code, spans, okReply := begun, ErrSessionReset, 0.0, false;
    for i := 0 to steps
      invariant s.Valid() && s.round.initial == timeout && fresh(s)
      invariant s.round.begun == begun && s.round.used == spans && Tells(s.round, ended, code)
      invariant s.round.results == [ErrOk] <==> okReply
    {
      var now: real := *;
      var event: int := *;
      var k: int := *;
      var reply: Errno := *;
      if now < s.clock {
        now := s.clock;
      }
      if event == 0 && 0 <= k < |s.round.requests| && s.round.requests[k].timer {
        code := ErrTimeout;
        EndsLater(s.round, k, s.clock, now, code);
        spans := spans + (now - s.round.requests[k].start);
        s.HandleTimeout(k, now);
        ended := now;
      } else if event == 1 && 0 <= k < |s.round.requests| && !s.round.requests[k].done {
        code, okReply := reply, okReply || reply == ErrOk;
        EndsLater(s.round, k, s.clock, now, code);
        spans := spans + (now - s.round.requests[k].start);
        s.OnReply(k, reply, now);
        ended := now;
      } else if event == 1 && k >= 0 {
        s.OnReply(k, reply, now);
      } else if event == 2 {
        if s.round.InFlight() {
          code := ErrSessionReset;
          EndsLater(s.round, |s.round.requests| - 1, s.clock, now, code);
          spans := spans + (now - s.round.Last().start);
          ended := now;
        }
        s.HandleClose(now);
      } else if event == 3 && s.round.retryScheduled {
        code, ended := ErrSessionReset, if now < s.round.mark then s.round.mark else now;
        TimePasses(s.round, s.clock, ended);
        RetryIdle(s.round, ended);
        SendTells(s.round.(retryScheduled := false), ended, s.closed);
        s.Retry(ended);
      } else {
        s.closed := false;
      }
    }
    RoundFacts(s.round, s.clock);
    TellsTime(s.round, s.clock, ended, code);
  }

  lemma EndsLater(r: Round, k: nat, clock: real, now: real, code: Errno)
    requires r.Valid(clock) && clock <= now && k < |r.requests| && (r.requests[k].timer || !r.requests[k].done)
    ensures var r' := r.Finish(k, now, code).Settle();
            && Tells(r', now, code) && r'.begun == r.begun && r'.initial == r.initial
            && r'.used == r.used + (now - r.requests[k].start)
            && r.results == [] && (r'.results == [ErrOk] <==> code == ErrOk)
  {
    hide Round.Valid, Tells;
    TimePasses(r, clock, now);
    FlightEnds(r, now);
    EndTells(r, k, now, code);
  }

  lemma TellsTime(r: Round, now: real, ended: real, code: Errno)
    requires r.Valid(now) && Tells(r, ended, code)
    ensures r.results != [] ==> r.results == [Reported(code)] && r.mark == ended
    ensures r.results != [] && r.results != [ErrOk] ==> r.initial - 1.0 <= ended - r.begun
  {
    hide Round.Valid;
    RoundFacts(r, now);
  }
}
