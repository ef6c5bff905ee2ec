/** Matching replies to callers on one connection: callers hand requests to the request loop,
    the response loop finds the caller by the sequence id of the reply. */
module NodeSession {

  import opened Arithmetic
  import opened Common

  const TWO31 := 0x8000_0000
  const TWO32 := 0x1_0000_0000

  /** The sequence id of the call numbered `c`: the counter is a 32-bit integer that wraps. */
  function SeqId(c: nat): int
  {
    var u := (c + 1) % TWO32;
    if u < TWO31 then u else u - TWO32
  }

  /** Two calls share a sequence id exactly if a multiple of 2^32 calls lies between them. */
  lemma SameSeqId(c: nat, d: nat)
    requires c <= d
    ensures SeqId(c) == SeqId(d) <==> (d - c) % TWO32 == 0
  {
    var q, r := (d - c) / TWO32, (d - c) % TWO32;
    var p, t := (c + 1) / TWO32, (c + 1) % TWO32;
    assert d + 1 == TWO32 * (p + q) + (t + r);
    if t + r < TWO32 {
      ModuloUnique(d + 1, TWO32, p + q, t + r);
    } else {
      ModuloUnique(d + 1, TWO32, p + q + 1, t + r - TWO32);
    }
  }

  lemma DistinctSeqIds(c: nat, d: nat)
    requires c < TWO32 && d < TWO32 && SeqId(c) == SeqId(d)
    ensures c == d
  {
    SameSeqId(if c < d then c else d, if c < d then d else c);
  }

  datatype Outcome = WriteFailed | Reply(seqId: int, body: int)

  /** Where the caller stands. */
  datatype Phase = Offering | Waiting | Got(outcome: Option<Outcome>) | GaveUp

  /** A call: its caller, its one-place channel, the outcome stored for the caller, and the
      notifications sent to it by the request loop and by the response loop. */
  datatype Call = Call(phase: Phase, full: bool, outcome: Option<Outcome>, failures: nat, replies: nat)

  datatype ReqLoop =
    | ReqIdle
    | Registering(c: nat)
    | Writing(c: nat)
    | Failing(c: nat, fatal: bool)
    | DroppingFailed(c: nat, fatal: bool)
    | ReqEnded

  datatype RespLoop =
    | RespIdle
    | Looking(reply: Outcome)
    | Matched(c: nat, reply: Outcome)
    | Notifying(c: nat)
    | DroppingAnswered(c: nat)
    | RespEnded

  datatype Event =
    | NewCall
    | Leave(c: nat)
    | Receive(c: nat)
    | Submit(c: nat)
    | Register
    | WriteOk
    | WriteFail(fatal: bool)
    | NotifyFailed
    | DropFailed
    | EndRequests
    | Read(seqId: int, body: int)
    | LookUp
    | SetResult
    | NotifyAnswered
    | DropAnswered
    | EndResponses

  datatype State = State(
    calls: seq<Call>, pending: map<int, nat>, req: ReqLoop, resp: RespLoop,
    /** History: the calls whose write succeeded, and the sequence ids of the replies read. */
    written: set<nat>, answered: set<int>,
    panicked: bool)
  {
    function With(c: nat, call: Call): State
      requires c < |calls|
    {
      this.(calls := calls[c := call])
    }

    /** The request loop notifies the caller if its channel has room, and panics otherwise. */
    function NotifyFailure(c: nat): State
      requires c < |calls|
    {
      if calls[c].full then this.(panicked := true)
      else With(c, calls[c].(full := true, failures := calls[c].failures + 1))
    }

    /** The response loop does the same. */
    function NotifyReply(c: nat): State
      requires c < |calls|
    {
      if calls[c].full then this.(panicked := true)
      else With(c, calls[c].(full := true, replies := calls[c].replies + 1))
    }

    predicate InRange()
    {
      && (match req
          case Registering(c) => c < |calls|
          case Writing(c) => c < |calls|
          case Failing(c, _) => c < |calls|
          case DroppingFailed(c, _) => c < |calls|
          case _ => true)
      && (match resp
          case Matched(c, _) => c < |calls|
          case Notifying(c) => c < |calls|
          case DroppingAnswered(c) => c < |calls|
          case _ => true)
      && (forall id <- pending :: pending[id] < |calls|)
    }

    predicate Enabled(e: Event)
    {
      && InRange() && !panicked
      && match e
         case NewCall => true
         case Leave(c) => c < |calls| && (calls[c].phase.Offering? || calls[c].phase.Waiting?)
         case Receive(c) => c < |calls| && calls[c].phase.Waiting? && calls[c].full
         case Submit(c) => c < |calls| && calls[c].phase.Offering? && req.ReqIdle?
         case Register => req.Registering?
         case WriteOk => req.Writing?
         case WriteFail(_) => req.Writing?
         case NotifyFailed => req.Failing?
         case DropFailed => req.DroppingFailed?
         case EndRequests => req.ReqIdle?
         case Read(_, _) => resp.RespIdle?
         case LookUp => resp.Looking? && resp.reply.Reply?
         case SetResult => resp.Matched?
         case NotifyAnswered => resp.Notifying?
         case DropAnswered => resp.DroppingAnswered?
         case EndResponses => resp.RespIdle?
    }

    function Step(e: Event): State
      requires Enabled(e)
    {
      match e
      case NewCall => this.(calls := calls + [Call(Offering, false, None, 0, 0)])
      case Leave(c) => With(c, calls[c].(phase := GaveUp))
      case Receive(c) => With(c, calls[c].(phase := Got(calls[c].outcome), full := false))
      case Submit(c) => With(c, calls[c].(phase := Waiting)).(req := Registering(c))
      case Register => this.(pending := pending[SeqId(req.c) := req.c], req := Writing(req.c))
      case WriteOk => this.(req := ReqIdle, written := written + {req.c})
      case WriteFail(fatal) =>
        With(req.c, calls[req.c].(outcome := Some(WriteFailed))).(req := Failing(req.c, fatal))
      case NotifyFailed => NotifyFailure(req.c).(req := DroppingFailed(req.c, req.fatal))
      case DropFailed => this.(pending := pending - {SeqId(req.c)}, req := if req.fatal then ReqEnded else ReqIdle)
      case EndRequests => this.(req := ReqEnded)
      case Read(seqId, body) => this.(resp := Looking(Reply(seqId, body)), answered := answered + {seqId})
      case LookUp =>
        this.(resp := if resp.reply.seqId in pending then Matched(pending[resp.reply.seqId], resp.reply) else RespIdle)
      case SetResult =>
        With(resp.c, calls[resp.c].(outcome := Some(resp.reply))).(resp := Notifying(resp.c))
      case NotifyAnswered => NotifyReply(resp.c).(resp := DroppingAnswered(resp.c))
      case DropAnswered => this.(pending := pending - {SeqId(resp.c)}, resp := RespIdle)
      case EndResponses => this.(resp := RespEnded)
    }

    /** The server replies only to requests whose write succeeds, though the reply may be read
        before the write returns: it answers a call written or being written, and a write whose
        reply was read does not fail. */
    ghost predicate Honest(e: Event)
    {
      match e
      case Read(seqId, _) => exists c :: (c in written || req == Writing(c)) && SeqId(c) == seqId
      case WriteFail(_) => req.Writing? ==> SeqId(req.c) !in answered
      case _ => true
    }
  }

  const INITIAL := State([], map[], ReqIdle, RespIdle, {}, {}, false)

  /** Whether the request loop is at work on the call. */
  predicate AtRequest(s: State, c: nat)
  {
    !s.req.ReqIdle? && !s.req.ReqEnded? && s.req.c == c
  }

  /** Whether the response loop has found the call and is about to notify its caller. */
  predicate AtResponse(s: State, c: nat)
  {
    (s.resp.Matched? || s.resp.Notifying?) && s.resp.c == c
  }

  /** Whether the call is registered. */
  predicate Listed(s: State, c: nat)
  {
    SeqId(c) in s.pending && s.pending[SeqId(c)] == c
  }

  /** Whether the call's write has reported a failure. */
  predicate Failed(s: State, c: nat)
    requires c < |s.calls|
  {
    s.calls[c].failures > 0 || (s.req.Failing? && s.req.c == c)
  }

  function Count(b: bool): nat
  {
    if b then 1 else 0
  }

  /** Each loop notifies at most once, and the channel holds what was sent and not received. */
  ghost predicate Counted(s: State, c: nat)
    requires c < |s.calls|
  {
    var call := s.calls[c];
    && call.failures <= 1 && call.replies <= 1
    && call.failures + call.replies == Count(call.full) + Count(call.phase.Got?)
    && (AtRequest(s, c) ==> (call.failures == 1 <==> s.req.DroppingFailed?))
    && (c in s.written || call.phase.Offering? ==> call.failures == 0)
    && (AtResponse(s, c) || s.req == Registering(c) || call.phase.Offering? ==> call.replies == 0)
    && (s.resp == DroppingAnswered(c) ==> call.replies == 1)
  }

  /** A call is registered from before its write until one of the loops drops it. */
  ghost predicate Registered(s: State, c: nat)
    requires c < |s.calls|
  {
    var call := s.calls[c];
    && (call.phase.Offering? ==> c !in s.written && !AtRequest(s, c) && !Listed(s, c) && !AtResponse(s, c))
    && (s.req == Registering(c) ==> !Listed(s, c) && !AtResponse(s, c))
    && (AtRequest(s, c) ==> c !in s.written)
    && (c in s.written || (AtRequest(s, c) && s.req != Registering(c)) ==> Listed(s, c) || call.replies == 1)
    && (Listed(s, c) && c !in s.written ==> AtRequest(s, c))
    && (Listed(s, c) && call.replies == 1 ==> s.resp == DroppingAnswered(c))
  }

  /** A failure is for a call whose write failed, a reply for the one with its sequence id. */
  ghost predicate Deserved(s: State, c: nat, outcome: Outcome)
    requires c < |s.calls|
  {
    if outcome.WriteFailed? then Failed(s, c) else outcome.seqId == SeqId(c)
  }

  /** What is stored for a caller, and what it got, is its failed write or its own reply. */
  ghost predicate OwnOutcome(s: State, c: nat)
    requires c < |s.calls|
  {
    var call := s.calls[c];
    && (call.full || s.resp == Notifying(c) || (s.req.Failing? && s.req.c == c) ==> call.outcome.Some?)
    && (call.outcome.Some? ==> Deserved(s, c, call.outcome.value))
    && (call.phase.Got? ==> call.phase.outcome.Some? && Deserved(s, c, call.phase.outcome.value))
  }

  /** What is known of each call in every run, whatever the server does. */
  ghost predicate CallSound(s: State, c: nat)
    requires c < |s.calls|
  {
    Counted(s, c) && Registered(s, c) && OwnOutcome(s, c)
  }

  ghost predicate CallsSound(s: State)
  {
    forall c :: 0 <= c < |s.calls| ==> CallSound(s, c)
  }

  ghost predicate LoopsSound(s: State)
  {
    && s.InRange() && |s.calls| <= TWO32
    && (forall c <- s.written :: c < |s.calls|)
    && (forall id <- s.pending :: SeqId(s.pending[id]) == id)
    && (match s.resp
        case Looking(reply) => reply.Reply?
        case Matched(c, reply) => reply.Reply? && reply.seqId == SeqId(c)
        case _ => true)
  }

  /** The books, kept in every run that has not panicked. */
  ghost predicate Sound(s: State)
  {
    LoopsSound(s) && CallsSound(s) && !s.panicked
  }

  lemma StepKeepsLoops(s: State, e: Event)
    requires Sound(s) && s.Enabled(e)
    requires |s.Step(e).calls| <= TWO32
    ensures LoopsSound(s.Step(e))
  {
    hide SeqId, CallSound;
  }

  lemma StepKeepsCounted(s: State, e: Event, c: nat)
    requires LoopsSound(s) && s.Enabled(e) && c < |s.calls| && CallSound(s, c) && !s.Step(e).panicked
    ensures Counted(s.Step(e), c)
  {
    hide SeqId, OwnOutcome;
  }

  lemma StepKeepsRegistered(s: State, e: Event, c: nat)
    requires LoopsSound(s) && s.Enabled(e) && c < |s.calls| && CallSound(s, c) && !s.Step(e).panicked
    ensures Registered(s.Step(e), c)
  {
    hide SeqId, OwnOutcome;
    if (e.Register? || e.DropFailed?) && SeqId(c) == SeqId(s.req.c) {
      DistinctSeqIds(c, s.req.c);
    }
    if e.DropAnswered? && SeqId(c) == SeqId(s.resp.c) {
      DistinctSeqIds(c, s.resp.c);
    }
  }

  lemma StepKeepsOutcome(s: State, e: Event, c: nat)
    requires LoopsSound(s) && s.Enabled(e) && c < |s.calls| && CallSound(s, c) && !s.Step(e).panicked
    ensures OwnOutcome(s.Step(e), c)
  {
    hide SeqId, Registered;
  }

  /** Nothing refers to a call that is yet to be made. */
  lemma Unknown(s: State)
    requires LoopsSound(s)
    ensures var c := |s.calls|;
            && c !in s.written && !AtRequest(s, c) && !AtResponse(s, c) && !Listed(s, c)
            && s.resp != DroppingAnswered(c)
  {
    hide SeqId;
  }

  lemma UnknownSound(s: State, c: nat)
    requires c < |s.calls| && s.calls[c] == Call(Offering, false, None, 0, 0)
    requires c !in s.written && !AtRequest(s, c) && !AtResponse(s, c) && !Listed(s, c)
    requires s.resp != DroppingAnswered(c)
    ensures CallSound(s, c)
  {
    hide SeqId;
  }

  lemma NewCallSound(s: State)
    requires LoopsSound(s) && s.Enabled(NewCall)
    ensures CallSound(s.Step(NewCall), |s.calls|)
  {
    hide SeqId, CallSound, LoopsSound, State.InRange;
    Unknown(s);
    var s' := s.Step(NewCall);
    assert s'.calls == s.calls + [Call(Offering, false, None, 0, 0)];
    UnknownSound(s', |s.calls|);
  }

  /** Every step keeps the books or panics, whatever the server does, as long as at most 2^32
      calls are made. */
  lemma StepKeeps(s: State, e: Event)
    requires Sound(s) && s.Enabled(e)
    requires |s.Step(e).calls| <= TWO32
    ensures s.Step(e).panicked || Sound(s.Step(e))
  {
    hide Counted, Registered, OwnOutcome;
    StepKeepsLoops(s, e);
    var s' := s.Step(e);
    if !s'.panicked {
      forall c | 0 <= c < |s'.calls|
        ensures CallSound(s', c)
      {
        if c < |s.calls| {
          assert CallSound(s, c);
          StepKeepsCounted(s, e, c);
          StepKeepsRegistered(s, e, c);
          StepKeepsOutcome(s, e, c);
        } else {
          NewCallSound(s);
        }
      }
    }
  }

  /** A run of at most 2^32 calls, up to a panic at the latest. */
  ghost predicate IsRun(s: State, run: seq<Event>)
    decreases |run|
  {
    && |s.calls| <= TWO32
    && (run == [] || (s.Enabled(run[0]) && IsRun(s.Step(run[0]), run[1..])))
  }

  ghost function After(s: State, run: seq<Event>): State
    requires IsRun(s, run)
    decreases |run|
  {
    if run == [] then s else After(s.Step(run[0]), run[1..])
  }

  lemma {:induction false} RunKeeps(s: State, run: seq<Event>)
    requires Sound(s) && IsRun(s, run)
    ensures After(s, run).panicked || Sound(After(s, run))
    decreases |run|
  {
    hide Sound, State.Step;
    if run != [] {
      StepKeeps(s, run[0]);
      if s.Step(run[0]).panicked {
        assert run[1..] == [] by { PanicEnds(s.Step(run[0]), run[1..]); }
      } else {
        RunKeeps(s.Step(run[0]), run[1..]);
      }
    }
  }

  lemma PanicEnds(s: State, run: seq<Event>)
    requires s.panicked && IsRun(s, run)
    ensures run == []
  {
  }

  lemma InitialSound()
    ensures Sound(INITIAL)
  {
  }

  /** The step notifies the caller of `c`. */
  predicate Notifies(s: State, e: Event, c: nat)
  {
    (e.NotifyFailed? && s.req.Failing? && s.req.c == c) || (e.NotifyAnswered? && s.resp == Notifying(c))
  }

  /** When a run panics, exactly: the next step notifies a caller that the other loop has
      notified already, and the caller has not received that notification. The write of such a
      call has reported a failure, and its reply was found. */
  lemma PanicExactly(run: seq<Event>, e: Event)
    requires IsRun(INITIAL, run) && After(INITIAL, run).Enabled(e)
    ensures var s := After(INITIAL, run);
            s.Step(e).panicked <==>
            exists c: nat :: c < |s.calls| && Notifies(s, e, c) && s.calls[c].failures + s.calls[c].replies == 1 && !s.calls[c].phase.Got?
    ensures var s := After(INITIAL, run);
            forall c: nat :: c < |s.calls| && Notifies(s, e, c) && s.calls[c].failures + s.calls[c].replies == 1 ==>
              && Failed(s, c)
              && (AtResponse(s, c) || s.calls[c].replies == 1)
  {
    hide SeqId, IsRun, After, Registered, OwnOutcome;
    InitialSound();
    RunKeeps(INITIAL, run);
    var s := After(INITIAL, run);
    if e.NotifyFailed? {
      assert CallSound(s, s.req.c);
      assert Notifies(s, e, s.req.c);
    }
    if e.NotifyAnswered? {
      assert CallSound(s, s.resp.c);
      assert Notifies(s, e, s.resp.c);
    }
  }

  /** A call whose write failed and that has no reply is registered, and a reply finds it,
      exactly until the request loop drops it. */
  lemma FoundBeforeDrop(s: State, c: nat)
    requires Sound(s) && c < |s.calls| && Failed(s, c)
    ensures s.calls[c].replies == 0 ==> (Listed(s, c) <==> AtRequest(s, c))
    ensures Listed(s, c) ==> AtRequest(s, c) && (s.calls[c].replies == 1 ==> s.resp == DroppingAnswered(c))
    ensures s.resp.Looking? && s.resp.reply.seqId == SeqId(c) && s.Enabled(LookUp) ==>
              (AtResponse(s.Step(LookUp), c) <==> Listed(s, c))
  {
    hide SeqId;
    assert CallSound(s, c);
    if s.resp.Looking? && SeqId(c) in s.pending {
      DistinctSeqIds(c, s.pending[SeqId(c)]);
    }
  }

  /** A reply to a call whose failed write was notified, handled at once: it panics exactly if
      the request loop has not dropped the call and the caller has not received the failure. */
  lemma ReplyToFailedWrite(s: State, c: nat, body: int)
    requires Sound(s) && s.resp.RespIdle? && c < |s.calls| && s.calls[c].failures == 1 && s.calls[c].replies == 0
    ensures var found := s.Step(Read(SeqId(c), body)).Step(LookUp);
            if Listed(s, c) then
              && found.Enabled(SetResult) && found.Step(SetResult).Enabled(NotifyAnswered)
              && (found.Step(SetResult).Step(NotifyAnswered).panicked <==> !s.calls[c].phase.Got?)
            else found == s.(answered := s.answered + {SeqId(c)})
  {
    hide SeqId;
    assert CallSound(s, c);
    if SeqId(c) in s.pending {
      DistinctSeqIds(c, s.pending[SeqId(c)]);
    }
  }

  /** Every reply in the run answers a write that succeeds, before or after it is read. */
  ghost predicate HonestRun(s: State, run: seq<Event>)
    requires IsRun(s, run)
    decreases |run|
  {
    run == [] || (s.Honest(run[0]) && HonestRun(s.Step(run[0]), run[1..]))
  }

  /** With an honest server, replies read belong to calls written or being written. */
  ghost predicate Answerable(s: State, c: nat)
    requires c < |s.calls|
  {
    && (SeqId(c) in s.answered ==> c in s.written || s.req == Writing(c))
    && (AtResponse(s, c) || s.calls[c].replies > 0 ==> SeqId(c) in s.answered)
    && (Failed(s, c) ==> c !in s.written && s.req != Writing(c))
  }

  ghost predicate HonestSound(s: State)
  {
    && Sound(s)
    && (forall c :: 0 <= c < |s.calls| ==> Answerable(s, c))
    && (s.resp.Looking? ==> s.resp.reply.Reply? && s.resp.reply.seqId in s.answered)
    && AnswersCalls(s)
  }

  /** Every reply read carries the sequence id of a call. */
  ghost predicate AnswersCalls(s: State)
  {
    forall id <- s.answered :: IdOfCall(s, id)
  }

  ghost predicate IdOfCall(s: State, id: int)
  {
    exists c: nat :: c < |s.calls| && SeqId(c) == id
  }

  lemma AnswersStayCalls(s: State, e: Event)
    requires LoopsSound(s) && AnswersCalls(s) && s.Enabled(e) && s.Honest(e)
    ensures AnswersCalls(s.Step(e))
  {
    hide SeqId;
    var s' := s.Step(e);
    assert |s.calls| <= |s'.calls|;
    forall id <- s'.answered
      ensures IdOfCall(s', id)
    {
      if id in s.answered {
        assert IdOfCall(s, id);
        var c: nat :| c < |s.calls| && SeqId(c) == id;
      } else {
        var c :| (c in s.written || s.req == Writing(c)) && SeqId(c) == e.seqId;
      }
    }
  }

  lemma HonestStepKeepsCall(s: State, e: Event, c: nat)
    requires LoopsSound(s) && s.Enabled(e) && s.Honest(e) && c < |s.calls| && CallSound(s, c) && Answerable(s, c)
    requires s.resp.Looking? ==> s.resp.reply.Reply? && s.resp.reply.seqId in s.answered
    ensures Answerable(s.Step(e), c)
  {
    hide SeqId, OwnOutcome;
    if e.Read? {
      var d :| (d in s.written || s.req == Writing(d)) && SeqId(d) == e.seqId;
      if SeqId(c) == e.seqId {
        DistinctSeqIds(c, d);
      }
    }
  }

  lemma HonestStepSilent(s: State, e: Event)
    requires HonestSound(s) && s.Enabled(e)
    ensures !s.Step(e).panicked
  {
    hide SeqId, Registered, OwnOutcome;
    if e.NotifyFailed? {
      assert CallSound(s, s.req.c) && Answerable(s, s.req.c);
    }
    if e.NotifyAnswered? {
      assert CallSound(s, s.resp.c) && Answerable(s, s.resp.c);
    }
  }

  lemma HonestStepKeeps(s: State, e: Event)
    requires HonestSound(s) && s.Enabled(e) && s.Honest(e) && |s.Step(e).calls| <= TWO32
    ensures HonestSound(s.Step(e))
  {
    hide SeqId, Counted, Registered, OwnOutcome, Answerable;
    StepKeeps(s, e);
    HonestStepSilent(s, e);
    AnswersStayCalls(s, e);
    var s' := s.Step(e);
    forall c | 0 <= c < |s'.calls|
      ensures Answerable(s', c)
    {
      if c < |s.calls| {
        assert CallSound(s, c);
        HonestStepKeepsCall(s, e, c);
      } else {
        NewCallAnswerable(s);
      }
    }
  }

  lemma NewCallAnswerable(s: State)
    requires HonestSound(s) && s.Enabled(NewCall) && |s.calls| < TWO32
    ensures Answerable(s.Step(NewCall), |s.calls|)
  {
    hide SeqId, CallSound, Answerable;
    var c := |s.calls|;
    Unknown(s);
    if SeqId(c) in s.answered {
      assert IdOfCall(s, SeqId(c));
      var d: nat :| d < |s.calls| && SeqId(d) == SeqId(c);
      DistinctSeqIds(c, d);
    }
    UnknownAnswerable(s.Step(NewCall), c);
  }

  lemma UnknownAnswerable(s: State, c: nat)
    requires c < |s.calls| && s.calls[c] == Call(Offering, false, None, 0, 0)
    requires SeqId(c) !in s.answered && !AtRequest(s, c) && !AtResponse(s, c)
    ensures Answerable(s, c)
  {
    hide SeqId;
  }

  lemma {:induction false} HonestRunKeeps(s: State, run: seq<Event>)
    requires HonestSound(s) && IsRun(s, run) && HonestRun(s, run)
    ensures HonestSound(After(s, run))
    decreases |run|
  {
    hide HonestSound, State.Step, State.Enabled, State.Honest;
    if run != [] {
      HonestStepKeeps(s, run[0]);
      HonestRunKeeps(s.Step(run[0]), run[1..]);
    }
  }

  /** What a caller got is its own failed write or the reply with its own sequence id; each loop
      notifies it at most once, and with a reply outstanding it can be found. */
  ghost predicate Served(s: State, c: nat)
    requires c < |s.calls|
  {
    var call := s.calls[c];
    && call.failures <= 1 && call.replies <= 1
    && (call.phase.Got? ==>
          || (call.phase.outcome == Some(WriteFailed) && Failed(s, c))
          || exists body :: call.phase.outcome == Some(Reply(SeqId(c), body)))
    && (c in s.written && call.replies == 0 ==> Listed(s, c))
  }

  /** In every run that has not panicked, whatever the server does, every caller is served. */
  lemma EveryRun(run: seq<Event>)
    requires IsRun(INITIAL, run) && !After(INITIAL, run).panicked
    ensures var s := After(INITIAL, run); forall c :: 0 <= c < |s.calls| ==> Served(s, c)
  {
    hide SeqId, IsRun, After;
    InitialSound();
    RunKeeps(INITIAL, run);
    var s := After(INITIAL, run);
    forall c | 0 <= c < |s.calls|
      ensures Served(s, c)
    {
      assert CallSound(s, c);
      var got := s.calls[c].phase;
      if got.Got? && got.outcome != Some(WriteFailed) {
        assert got.outcome == Some(Reply(SeqId(c), got.outcome.value.body));
      }
    }
  }

  /** In every run with an honest server nothing panics and every caller is notified at most
      once in all. */
  lemma EveryHonestRun(run: seq<Event>)
    requires IsRun(INITIAL, run) && HonestRun(INITIAL, run)
    ensures var s := After(INITIAL, run);
            !s.panicked && forall c :: 0 <= c < |s.calls| ==> s.calls[c].failures + s.calls[c].replies <= 1
  {
    hide SeqId, IsRun, After, HonestRun, Registered, OwnOutcome;
    InitialSound();
    HonestRunKeeps(INITIAL, run);
    var s := After(INITIAL, run);
    forall c | 0 <= c < |s.calls|
      ensures s.calls[c].failures + s.calls[c].replies <= 1
    {
      assert CallSound(s, c) && Answerable(s, c);
    }
  }

  /** A reply to a call that the loops have dropped is stale: it changes neither a listener nor
      the table. */
  lemma StaleReplyIgnored(s: State, c: nat, body: int)
    requires Sound(s) && s.resp.RespIdle? && c < |s.calls|
    requires s.calls[c].replies == 1 || (s.calls[c].failures == 1 && !AtRequest(s, c))
    ensures var read := Read(SeqId(c), body);
            && s.Enabled(read) && s.Step(read).Enabled(LookUp)
            && s.Step(read).Step(LookUp) == s.(answered := s.answered + {SeqId(c)})
  {
    hide SeqId;
    assert CallSound(s, c);
    if SeqId(c) in s.pending {
      DistinctSeqIds(c, s.pending[SeqId(c)]);
    }
  }

  /** A reply to a call written or being written that has not been answered reaches exactly that
      call, unless its write fails first, and its caller if that still waits. */
  lemma ReplyReachesItsCaller(s: State, c: nat, body: int)
    requires Sound(s) && s.resp.RespIdle? && c < |s.calls| && s.calls[c].replies == 0
    requires c in s.written || s.req == Writing(c)
    ensures var found := s.Step(Read(SeqId(c), body)).Step(LookUp);
            && found.Enabled(SetResult) && found.Step(SetResult).Enabled(NotifyAnswered)
            && found.Step(SetResult).Step(NotifyAnswered).calls
               == s.calls[c := s.calls[c].(full := true, outcome := Some(Reply(SeqId(c), body)), replies := 1)]
            && var told := found.Step(SetResult).Step(NotifyAnswered);
               s.calls[c].phase.Waiting? ==>
                 && told.Enabled(Receive(c))
                 && told.Step(Receive(c)).calls[c].phase == Got(Some(Reply(SeqId(c), body)))
  {
    hide SeqId;
    assert CallSound(s, c);
  }

  /** A failed write reaches its caller, and no other. */
  lemma FailureReachesItsCaller(s: State, c: nat, fatal: bool)
    requires Sound(s) && s.req == Writing(c) && s.calls[c].replies == 0
    ensures s.Enabled(WriteFail(fatal)) && s.Step(WriteFail(fatal)).Enabled(NotifyFailed)
    ensures var told := s.Step(WriteFail(fatal)).Step(NotifyFailed);
            && told.calls == s.calls[c := s.calls[c].(full := true, outcome := Some(WriteFailed), failures := 1)]
            && (s.calls[c].phase.Waiting? ==>
                  && told.Enabled(Receive(c))
                  && told.Step(Receive(c)).calls[c].phase == Got(Some(WriteFailed)))
  {
    hide SeqId;
    assert CallSound(s, c);
  }

  /** A write has failed for good, or the request loop has ended. */
  predicate RequestsOver(req: ReqLoop)
  {
    req.ReqEnded? || ((req.Failing? || req.DroppingFailed?) && req.fatal)
  }

  /** After a fatal failure no further request is taken or written. */
  lemma {:induction false} NothingWrittenAfterFatal(s: State, run: seq<Event>)
    requires IsRun(s, run) && RequestsOver(s.req)
    ensures forall e <- run :: !e.Submit? && !e.Register? && !e.WriteOk? && !e.WriteFail?
    decreases |run|
  {
    if run != [] {
      NothingWrittenAfterFatal(s.Step(run[0]), run[1..]);
    }
  }

  /** After any other failure the next caller's request is taken. */
  lemma OtherFailuresGoOn(s: State, d: nat)
    requires Sound(s) && d < |s.calls| && s.calls[d].phase.Offering?
    requires s.req.DroppingFailed? && !s.req.fatal
    ensures s.Enabled(DropFailed) && s.Step(DropFailed).Enabled(Submit(d))
  {
    hide SeqId;
  }

  lemma Prepend(s: State, e: Event, rest: seq<Event>)
    requires |s.calls| <= TWO32 && s.Enabled(e) && IsRun(s.Step(e), rest)
    ensures IsRun(s, [e] + rest) && After(s, [e] + rest) == After(s.Step(e), rest)
  {
    hide State.Step, State.Enabled;
    assert ([e] + rest)[1..] == rest;
  }

  lemma Stop(s: State)
    requires |s.calls| <= TWO32
    ensures IsRun(s, []) && After(s, []) == s
  {
  }

  /** A request and its reply: the caller gets the body that was read. */
  lemma ReplyReceived(body: int) returns (run: seq<Event>)
    ensures IsRun(INITIAL, run)
    ensures var s := After(INITIAL, run);
            |s.calls| == 1 && s.written == {0} && s.calls[0].phase == Got(Some(Reply(1, body))) && s.pending == map[]
  {
    hide IsRun, After;
    var s0 := INITIAL;
    var s1 := s0.Step(NewCall);
    var s2 := s1.Step(Submit(0));
    var s3 := s2.Step(Register);
    var s4 := s3.Step(WriteOk);
    assert s4.pending == map[1 := 0] && SeqId(0) == 1;
    var late := ReplyDelivered(s4, body);
    Prepend(s3, WriteOk, late);
    Prepend(s2, Register, [WriteOk] + late);
    Prepend(s1, Submit(0), [Register] + ([WriteOk] + late));
    Prepend(s0, NewCall, [Submit(0)] + ([Register] + ([WriteOk] + late)));
    run := [NewCall] + ([Submit(0)] + ([Register] + ([WriteOk] + late)));
  }

  lemma ReplyDelivered(s: State, body: int) returns (run: seq<Event>)
    requires s.req.ReqIdle? && s.resp.RespIdle? && !s.panicked && s.pending == map[1 := 0]
    requires |s.calls| == 1 && s.calls[0].phase.Waiting? && !s.calls[0].full
    ensures IsRun(s, run)
    ensures var s' := After(s, run);
            |s'.calls| == 1 && s'.written == s.written && s'.calls[0].phase == Got(Some(Reply(1, body))) && s'.pending == map[]
  {
    hide IsRun, After, SeqId;
    var s1 := s.Step(Read(1, body));
    var s2 := s1.Step(LookUp);
    var s3 := s2.Step(SetResult);
    var late := NotifiedReceives(s3);
    Prepend(s2, SetResult, late);
    Prepend(s1, LookUp, [SetResult] + late);
    Prepend(s, Read(1, body), [LookUp] + ([SetResult] + late));
    run := [Read(1, body)] + ([LookUp] + ([SetResult] + late));
  }

  /** The caller is notified, the call dropped, and the outcome received. */
  lemma NotifiedReceives(s: State) returns (run: seq<Event>)
    requires s.req.ReqIdle? && s.resp == Notifying(0) && !s.panicked && s.pending == map[1 := 0]
    requires |s.calls| == 1 && s.calls[0].phase.Waiting? && !s.calls[0].full
    ensures IsRun(s, run)
    ensures var s' := After(s, run);
            |s'.calls| == 1 && s'.written == s.written && s'.calls[0].phase == Got(s.calls[0].outcome) && s'.pending == map[]
  {
    hide IsRun, After;
    var s1 := s.Step(NotifyAnswered);
    var s2 := s1.Step(DropAnswered);
    var s3 := s2.Step(Receive(0));
    assert SeqId(0) == 1;
    Stop(s3);
    Prepend(s2, Receive(0), []);
    Prepend(s1, DropAnswered, [Receive(0)] + []);
    Prepend(s, NotifyAnswered, [DropAnswered] + ([Receive(0)] + []));
    run := [NotifyAnswered] + ([DropAnswered] + ([Receive(0)] + []));
  }

  /** Without honesty the panic is reachable: the write of the first request reports a failure,
      yet the request reached the server, and its reply is looked up before the request loop
      drops the call. */
  lemma ReplyAfterFailedWritePanics() returns (run: seq<Event>)
    ensures IsRun(INITIAL, run) && After(INITIAL, run).panicked
  {
    var s0 := INITIAL;
    var s1 := s0.Step(NewCall);
    var s2 := s1.Step(Submit(0));
    var s3 := s2.Step(Register);
    var s4 := s3.Step(WriteFail(false));
    var s5 := s4.Step(NotifyFailed);
    var late := FullChannelPanics(s5);
    Prepend(s4, NotifyFailed, late);
    Prepend(s3, WriteFail(false), [NotifyFailed] + late);
    Prepend(s2, Register, [WriteFail(false)] + ([NotifyFailed] + late));
    late := [Register] + ([WriteFail(false)] + ([NotifyFailed] + late));
    Prepend(s1, Submit(0), late);
    Prepend(s0, NewCall, [Submit(0)] + late);
    run := [NewCall] + ([Submit(0)] + late);
  }

  lemma FullChannelPanics(s: State) returns (run: seq<Event>)
    requires s.InRange() && !s.panicked && s.resp.RespIdle? && |s.calls| == 1
    requires s.calls[0].full && 1 in s.pending && s.pending[1] == 0
    ensures IsRun(s, run) && After(s, run).panicked
  {
    var s1 := s.Step(Read(1, 0));
    var s2 := s1.Step(LookUp);
    var s3 := s2.Step(SetResult);
    var s4 := s3.Step(NotifyAnswered);
    Prepend(s3, NotifyAnswered, []);
    Prepend(s2, SetResult, [NotifyAnswered]);
    Prepend(s1, LookUp, [SetResult] + [NotifyAnswered]);
    Prepend(s, Read(1, 0), [LookUp] + ([SetResult] + [NotifyAnswered]));
    run := [Read(1, 0)] + ([LookUp] + ([SetResult] + [NotifyAnswered]));
  }
}
