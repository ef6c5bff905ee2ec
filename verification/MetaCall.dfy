/** One call to the meta servers: the leader is asked first, the others after a delay or once
    the leader failed, forwarded leaders are learned, and the first real answer wins. The
    goroutines interleave at lock and channel operations. */
module MetaCall {

  import opened Common

  datatype Errno = ErrOk | ErrForwardToOthers | ErrOther

  /** A reply, with the address it forwards to if it names one. */
  datatype Response = Response(errno: Errno, forward: Option<string>, body: int)
  {
    predicate Forwards()
    {
      errno == ErrForwardToOthers
    }
  }

  datatype CallResult = Failed | Replied(resp: Response)

  /** Where a goroutine that queries one meta server stands. */
  datatype Pc =
    | Starting
    | Calling(meta: string)
    | Searching(addr: string)
    | Appending(addr: string)
    | Recalling(meta: string)
    | Storing(resp: Response)
    | Sending(resp: Response)
    | Returned(ok: bool)

  /** `origin` indexes the meta server the goroutine was started for, `curLeader` the one it is
      concerned with now. */
  datatype Worker = Worker(origin: nat, curLeader: nat, pc: Pc)
  {
    /** Whether an append, if any, lies behind the goroutine. */
    predicate Behind()
    {
      pc.Recalling? || pc.Storing? || pc.Sending? || pc.Returned?
    }

    /** Behind a call: a forward with an address is followed up after the first call only. */
    function AfterCall(r: CallResult): Worker
    {
      if r.Replied? && r.resp.Forwards() && pc.Calling? && r.resp.forward.Some? then
        this.(pc := Searching(r.resp.forward.value))
      else if r.Failed? || r.resp.Forwards() then
        this.(pc := Returned(false))
      else
        this.(pc := Storing(r.resp))
    }
  }

  datatype LeaderTail = Querying | Finished

  datatype Backup = Waiting | Snapshotting | Spawning(snapshot: nat, next: nat) | Joining | Ended

  datatype Caller = Selecting | Cancelling(result: Option<Response>) | Joined(result: Option<Response>) | Done(result: Option<Response>)

  /** `workers[0]` queries the leader, the others were spawned for the backups. */
  datatype State = State(
    addrs: seq<string>, metas: seq<string>, lead: nat, newLead: nat,
    workers: seq<Worker>, tail: LeaderTail, backup: Backup, caller: Caller,
    ctxDone: bool, cancelled: bool,
    /** History: the metas that gave a reply other than a forward, and the responses passed
        to the caller. */
    answered: set<nat>, delivered: seq<Response>)
  {
    predicate SubDone()
    {
      ctxDone || cancelled
    }

    function With(i: nat, w: Worker): State
      requires i < |workers|
    {
      this.(workers := workers[i := w])
    }

    predicate Enabled(e: Event)
    {
      match e
      case Read(i) => i < |workers| && workers[i].pc.Starting? && workers[i].curLeader < |metas|
      case Return(i, _) => i < |workers| && (workers[i].pc.Calling? || workers[i].pc.Recalling?)
      case Search(i) => i < |workers| && workers[i].pc.Searching?
      case Append(i) => i < |workers| && workers[i].pc.Appending?
      case Store(i) => i < |workers| && workers[i].pc.Storing?
      case Send(i) => i < |workers| && workers[i].pc.Sending? && caller.Selecting?
      case GiveUp(i) => i < |workers| && workers[i].pc.Sending? && SubDone()
      case OfferBackup => LeaderFailed() && backup.Waiting?
      case FinishLeader => tail.Querying? && 0 < |workers| && workers[0].pc.Returned? && (workers[0].pc.ok || SubDone())
      case Timer => backup.Waiting?
      case SkipBackup => backup.Waiting? && SubDone()
      case Snapshot => backup.Snapshotting?
      case Spawn => backup.Spawning? && backup.next < backup.snapshot
      case Spawned => backup.Spawning? && backup.next >= backup.snapshot
      case Join => backup.Joining? && forall i :: 1 <= i < |workers| ==> workers[i].pc.Returned?
      case Expire => !ctxDone
      case Abandon => caller.Selecting? && ctxDone
      case Cancel => caller.Cancelling?
      case WaitOver => caller.Joined? && tail.Finished? && backup.Ended?
    }

    predicate LeaderFailed()
    {
      tail.Querying? && 0 < |workers| && workers[0].pc == Returned(false)
    }

    function Step(e: Event): State
      requires Enabled(e)
    {
      match e
      case Read(i) => With(i, workers[i].(pc := Calling(metas[workers[i].curLeader])))
      case Return(i, r) =>
        var w := workers[i].AfterCall(r);
        With(i, w).(answered := if w.pc.Storing? then answered + {w.curLeader} else answered)
      case Search(i) =>
        var addr := workers[i].pc.addr;
        With(i, workers[i].(pc := if addr in addrs then Returned(false) else Appending(addr)))
      case Append(i) =>
        var addr := workers[i].pc.addr;
        With(i, workers[i].(curLeader := |metas|, pc := Recalling(addr))).(addrs := addrs + [addr], metas := metas + [addr])
      case Store(i) => With(i, workers[i].(pc := Sending(workers[i].pc.resp))).(newLead := workers[i].curLeader)
      case Send(i) =>
        var resp := workers[i].pc.resp;
        With(i, workers[i].(pc := Returned(true))).(caller := Cancelling(Some(resp)), delivered := delivered + [resp])
      case GiveUp(i) => With(i, workers[i].(pc := Returned(true)))
      case OfferBackup => this.(tail := Finished, backup := Snapshotting)
      case FinishLeader => this.(tail := Finished)
      case Timer => this.(backup := Snapshotting)
      case SkipBackup => this.(backup := Ended)
      case Snapshot => this.(backup := Spawning(|metas|, 0))
      case Spawn =>
        var next := this.(backup := Spawning(backup.snapshot, backup.next + 1));
        if backup.next == lead then next else next.(workers := workers + [Worker(backup.next, backup.next, Starting)])
      case Spawned => this.(backup := Joining)
      case Join => this.(backup := Ended)
      case Expire => this.(ctxDone := true)
      case Abandon => this.(caller := Cancelling(None))
      case Cancel => this.(caller := Joined(caller.result), cancelled := true)
      case WaitOver => this.(caller := Done(caller.result))
    }
  }

  /** The atomic steps. `Return` is the meta server's answer, or the failure of the RPC;
      `Expire` is the end of the context given to the call. */
  datatype Event =
    | Read(i: nat) | Return(i: nat, r: CallResult) | Search(i: nat) | Append(i: nat)
    | Store(i: nat) | Send(i: nat) | GiveUp(i: nat)
    | OfferBackup | FinishLeader
    | Timer | SkipBackup | Snapshot | Spawn | Spawned | Join
    | Expire | Abandon | Cancel | WaitOver
  {
    /** A step of the goroutine `i` that queries a meta server. */
    predicate OfWorker()
    {
      Read? || Return? || Search? || Append? || Store? || Send? || GiveUp?
    }

    /** A step of the goroutine that queries the backups. */
    predicate OfBackup()
    {
      OfferBackup? || Timer? || SkipBackup? || Snapshot? || Spawn? || Spawned? || Join?
    }
  }

  function Initial(addrs: seq<string>, lead: nat): State
  {
    State(addrs, addrs, lead, lead, [Worker(lead, lead, Starting)], Querying, Waiting, Selecting, false, false, {}, [])
  }

  predicate IsRun(s: State, run: seq<Event>)
    decreases |run|
  {
    run == [] || (s.Enabled(run[0]) && IsRun(s.Step(run[0]), run[1..]))
  }

  function After(s: State, run: seq<Event>): State
    requires IsRun(s, run)
    decreases |run|
  {
    if run == [] then s else After(s.Step(run[0]), run[1..])
  }

  lemma Stop(s: State)
    ensures IsRun(s, []) && After(s, []) == s
  {
  }

  lemma Prepend(s: State, e: Event, rest: seq<Event>)
    requires s.Enabled(e) && IsRun(s.Step(e), rest)
    ensures IsRun(s, [e] + rest) && After(s, [e] + rest) == After(s.Step(e), rest)
  {
    hide State.Step, State.Enabled;
    assert ([e] + rest)[1..] == rest;
  }

  /** The lists stay aligned and keep the original entries in place. */
  ghost predicate ListsAligned(s: State, original: seq<string>)
  {
    s.metas == s.addrs && original <= s.addrs
  }

  ghost predicate WorkerSound(s: State, w: Worker)
  {
    && w.curLeader < |s.metas| && w.origin < |s.metas|
    && (w.pc.Calling? || w.pc.Recalling? ==> w.pc.meta == s.metas[w.curLeader])
    && (w.pc.Storing? || w.pc.Sending? ==> w.curLeader in s.answered && !w.pc.resp.Forwards())
    && (w.pc.Sending? ==> s.newLead in s.answered)
    && (w.pc == Returned(true) ==> !s.caller.Selecting? || s.ctxDone)
    && (w.curLeader != w.origin ==> w.Behind())
  }

  ghost predicate WorkersSound(s: State)
  {
    forall i :: 0 <= i < |s.workers| ==> WorkerSound(s, s.workers[i])
  }

  /** The new leader is an entry of the list: the old one, or one that answered. */
  ghost predicate LeaderSound(s: State)
  {
    && s.newLead < |s.metas| && s.lead < |s.metas|
    && (s.newLead == s.lead || s.newLead in s.answered)
    && (forall k <- s.answered :: k < |s.metas|)
  }

  /** What the caller has got: at most one response, never a forward. */
  ghost predicate ResultSound(s: State)
  {
    match s.caller
    case Selecting => s.delivered == [] && !s.cancelled
    case Cancelling(r) => Passed(s, r) && !s.cancelled
    case Joined(r) => Passed(s, r) && s.cancelled
    case Done(r) => Passed(s, r) && s.cancelled && s.tail.Finished? && s.backup.Ended?
  }

  ghost predicate Passed(s: State, r: Option<Response>)
  {
    if r.None? then s.delivered == [] && s.ctxDone
    else s.delivered == [r.value] && !r.value.Forwards() && s.newLead in s.answered
  }

  /** Which goroutines exist and which have ended. */
  ghost predicate ShapeSound(s: State)
  {
    && 0 < |s.workers|
    && (s.tail.Finished? ==> s.workers[0].pc.Returned?)
    && (s.backup.Spawning? ==> s.backup.next <= s.backup.snapshot <= |s.metas|)
    && (s.backup.Ended? ==> forall i :: 1 <= i < |s.workers| ==> s.workers[i].pc.Returned?)
  }

  /** The goroutine started for entry `k`. */
  function SlotOf(k: nat, lead: nat): nat
  {
    if k < lead then k + 1 else if k == lead then 0 else k
  }

  ghost predicate Queried(s: State, k: nat)
  {
    var i := SlotOf(k, s.lead);
    i < |s.workers| && s.workers[i].origin == k
  }

  ghost predicate AllQueried(s: State, n: nat)
  {
    forall k: nat :: k < n ==> Queried(s, k)
  }

  /** The goroutine that learned of entry `k` is concerned with it. */
  ghost predicate Learned(s: State, k: nat)
  {
    exists i :: 0 <= i < |s.workers| && s.workers[i].curLeader == k && s.workers[i].origin != k
  }

  ghost predicate AllLearned(s: State, original: seq<string>)
  {
    forall k: nat :: |original| <= k < |s.metas| ==> Learned(s, k)
  }

  /** How far the queries of the backups have got. */
  ghost predicate CoverageSound(s: State, original: seq<string>)
  {
    && 0 < |s.workers| && s.workers[0].origin == s.lead
    && match s.backup
       case Spawning(snapshot, next) =>
         && |original| <= snapshot && AllQueried(s, next)
         && |s.workers| == if next > s.lead then next else next + 1
       case Joining => AllQueried(s, |original|)
       case Ended => s.SubDone() || AllQueried(s, |original|)
       case _ => |s.workers| == 1
  }

  ghost predicate Sound(s: State, original: seq<string>)
  {
    && ListsAligned(s, original) && WorkersSound(s) && LeaderSound(s)
    && ResultSound(s) && ShapeSound(s) && CoverageSound(s, original)
    && AllLearned(s, original)
  }

  lemma InitialSound(addrs: seq<string>, lead: nat)
    requires lead < |addrs|
    ensures Sound(Initial(addrs, lead), addrs)
  {
  }

  /** A goroutine is not disturbed by the steps of the others. */
  lemma BystanderSound(s: State, e: Event, w: Worker, original: seq<string>)
    requires Sound(s, original) && s.Enabled(e) && WorkerSound(s, w)
    ensures WorkerSound(s.Step(e), w)
  {
    hide CoverageSound, ShapeSound, AllLearned;
    if e.Store? {
      assert WorkerSound(s, s.workers[e.i]);
    }
  }

  lemma ActorSound(s: State, e: Event, original: seq<string>)
    requires Sound(s, original) && s.Enabled(e) && e.OfWorker()
    ensures |s.Step(e).workers| == |s.workers| && WorkerSound(s.Step(e), s.Step(e).workers[e.i])
  {
    hide CoverageSound, ShapeSound, AllLearned;
    assert WorkerSound(s, s.workers[e.i]);
  }

  lemma StepKeepsWorkers(s: State, e: Event, original: seq<string>)
    requires Sound(s, original) && s.Enabled(e)
    ensures WorkersSound(s.Step(e))
  {
    hide CoverageSound, ResultSound, WorkerSound, AllLearned;
    var s' := s.Step(e);
    forall i | 0 <= i < |s'.workers|
      ensures WorkerSound(s', s'.workers[i])
    {
      if e.OfWorker() && i == e.i {
        ActorSound(s, e, original);
      } else if i < |s.workers| {
        BystanderSound(s, e, s.workers[i], original);
      } else {
        SpawnedSound(s', s'.workers[i]);
      }
    }
  }

  lemma SpawnedSound(s: State, w: Worker)
    requires w.curLeader < |s.metas| && w.origin == w.curLeader && w.pc.Starting?
    ensures WorkerSound(s, w)
  {
  }

  lemma StepKeepsLists(s: State, e: Event, original: seq<string>)
    requires Sound(s, original) && s.Enabled(e)
    ensures ListsAligned(s.Step(e), original) && LeaderSound(s.Step(e))
  {
    hide ResultSound, ShapeSound, CoverageSound, AllLearned;
    if e.Store? || e.Return? {
      assert WorkerSound(s, s.workers[e.i]);
    }
  }

  lemma StepKeepsResult(s: State, e: Event, original: seq<string>)
    requires Sound(s, original) && s.Enabled(e)
    ensures ResultSound(s.Step(e))
  {
    hide ListsAligned, ShapeSound, LeaderSound, CoverageSound, AllLearned;
    if e.Store? || e.Send? {
      assert WorkerSound(s, s.workers[e.i]);
    }
  }

  lemma StepKeepsShape(s: State, e: Event, original: seq<string>)
    requires Sound(s, original) && s.Enabled(e)
    ensures ShapeSound(s.Step(e))
  {
    hide ListsAligned, ResultSound, LeaderSound, WorkersSound, AllQueried, AllLearned;
  }

  lemma SpawnCovers(s: State, n: nat)
    requires AllQueried(s, n)
    requires 0 < |s.workers| && s.workers[0].origin == s.lead
    requires |s.workers| == if n > s.lead then n else n + 1
    ensures var workers := if n == s.lead then s.workers else s.workers + [Worker(n, n, Starting)];
            AllQueried(s.(workers := workers), n + 1)
  {
    var s' := s.(workers := if n == s.lead then s.workers else s.workers + [Worker(n, n, Starting)]);
    forall k: nat | k < n + 1
      ensures Queried(s', k)
    {
      if k < n {
        assert Queried(s, k);
      }
    }
  }

  lemma QueriedStays(s: State, s': State, n: nat)
    requires AllQueried(s, n) && s'.lead == s.lead && |s.workers| <= |s'.workers|
    requires forall i :: 0 <= i < |s.workers| ==> s'.workers[i].origin == s.workers[i].origin
    ensures AllQueried(s', n)
  {
    forall k: nat | k < n
      ensures Queried(s', k)
    {
      assert Queried(s, k);
    }
  }

  /** Steps of the other goroutines leave the backup goroutine and its workers as they are. */
  lemma BackupUntouched(s: State, e: Event)
    requires s.Enabled(e) && !e.OfBackup()
    ensures var s' := s.Step(e);
            && s'.backup == s.backup && s'.lead == s.lead && |s'.workers| == |s.workers|
            && (forall i :: 0 <= i < |s.workers| ==> s'.workers[i].origin == s.workers[i].origin)
            && (s.SubDone() ==> s'.SubDone())
  {
  }

  lemma StepKeepsCoverage(s: State, e: Event, original: seq<string>)
    requires Sound(s, original) && s.Enabled(e)
    ensures CoverageSound(s.Step(e), original)
  {
    hide ResultSound, LeaderSound, WorkersSound, AllQueried, AllLearned;
    var s' := s.Step(e);
    if !e.OfBackup() {
      OthersKeepCoverage(s, e, original);
    } else if e.Snapshot? {
      NoneQueried(s');
    } else if e.Spawn? {
      SpawnCovers(s, s.backup.next);
      QueriedStays(s.(workers := s'.workers), s', s.backup.next + 1);
    } else if e.Spawned? {
      FewerQueried(s, s.backup.next, |original|);
      QueriedStays(s, s', |original|);
    } else if e.Join? {
      QueriedStays(s, s', |original|);
    }
  }

  lemma OthersKeepCoverage(s: State, e: Event, original: seq<string>)
    requires Sound(s, original) && s.Enabled(e) && !e.OfBackup()
    ensures CoverageSound(s.Step(e), original)
  {
    hide ListsAligned, ResultSound, ShapeSound, LeaderSound, WorkersSound, AllQueried, AllLearned, State.Step, State.Enabled, State.SubDone;
    var s' := s.Step(e);
    BackupUntouched(s, e);
    if s.backup.Spawning? {
      QueriedStays(s, s', s.backup.next);
    } else if s.backup.Joining? || (s.backup.Ended? && !s.SubDone()) {
      QueriedStays(s, s', |original|);
    }
  }

  lemma NoneQueried(s: State)
    ensures AllQueried(s, 0)
  {
  }

  lemma FewerQueried(s: State, n: nat, m: nat)
    requires AllQueried(s, n) && m <= n
    ensures AllQueried(s, m)
  {
  }

  /** Entries once learned stay with the goroutine that learned them. */
  lemma LearnedStays(s: State, e: Event, k: nat)
    requires WorkersSound(s) && s.Enabled(e) && Learned(s, k)
    ensures Learned(s.Step(e), k)
  {
    var i :| 0 <= i < |s.workers| && s.workers[i].curLeader == k && s.workers[i].origin != k;
    assert WorkerSound(s, s.workers[i]);
    assert s.Step(e).workers[i].curLeader == k && s.Step(e).workers[i].origin != k;
  }

  lemma StepKeepsLearned(s: State, e: Event, original: seq<string>)
    requires Sound(s, original) && s.Enabled(e)
    ensures AllLearned(s.Step(e), original)
  {
    hide Learned, WorkersSound, LeaderSound, ResultSound, ShapeSound, CoverageSound;
    var s' := s.Step(e);
    forall k: nat | |original| <= k < |s'.metas|
      ensures Learned(s', k)
    {
      if k < |s.metas| {
        LearnedStays(s, e, k);
      } else {
        AppendLearns(s, e);
      }
    }
  }

  lemma AppendLearns(s: State, e: Event)
    requires s.Enabled(e) && e.Append? && WorkersSound(s)
    ensures Learned(s.Step(e), |s.metas|)
  {
    var s' := s.Step(e);
    assert WorkerSound(s, s.workers[e.i]);
    assert s'.workers[e.i].curLeader == |s.metas| && s'.workers[e.i].origin != |s.metas|;
  }

  /** Every step keeps the lists aligned, the leader in range, and the result sound. */
  lemma StepKeeps(s: State, e: Event, original: seq<string>)
    requires Sound(s, original) && s.Enabled(e)
    ensures Sound(s.Step(e), original)
  {
    hide ListsAligned, ResultSound, ShapeSound, CoverageSound, AllLearned, LeaderSound, WorkersSound, State.Step, State.Enabled;
    StepKeepsLists(s, e, original);
    StepKeepsWorkers(s, e, original);
    StepKeepsResult(s, e, original);
    StepKeepsShape(s, e, original);
    StepKeepsCoverage(s, e, original);
    StepKeepsLearned(s, e, original);
  }

  /** Steps a goroutine that queries one meta server has left, at most. */
  function Steps(pc: Pc): nat
  {
    match pc
    case Starting => 7
    case Calling(_) => 6
    case Searching(_) => 5
    case Appending(_) => 4
    case Recalling(_) => 3
    case Storing(_) => 2
    case Sending(_) => 1
    case Returned(_) => 0
  }

  function AllSteps(workers: seq<Worker>): nat
  {
    if workers == [] then 0 else AllSteps(workers[..|workers| - 1]) + Steps(workers[|workers| - 1].pc)
  }

  lemma {:induction false} AllStepsUpdate(workers: seq<Worker>, i: nat, w: Worker)
    requires i < |workers|
    ensures AllSteps(workers[i := w]) == AllSteps(workers) - Steps(workers[i].pc) + Steps(w.pc)
  {
    var last := |workers| - 1;
    if i == last {
      assert workers[i := w][..last] == workers[..last];
    } else {
      AllStepsUpdate(workers[..last], i, w);
      assert workers[i := w][..last] == workers[..last][i := w];
    }
  }

  lemma AllStepsAppend(workers: seq<Worker>, w: Worker)
    ensures AllSteps(workers + [w]) == AllSteps(workers) + Steps(w.pc)
  {
    assert (workers + [w])[..|workers|] == workers;
  }

  /** Whether a goroutine can still lengthen the list. */
  function MayAppend(workers: seq<Worker>): nat
  {
    if 0 < |workers| && Steps(workers[0].pc) >= 4 then 1 else 0
  }

  /** Steps of the backup goroutine and of those it has yet to spawn. */
  function BackupSteps(s: State): nat
  {
    match s.backup
    case Waiting => 8 * (|s.metas| + MayAppend(s.workers)) + 4
    case Snapshotting => 8 * (|s.metas| + MayAppend(s.workers)) + 3
    case Spawning(snapshot, next) => if next <= snapshot then 8 * (snapshot - next) + 2 else 2
    case Joining => 1
    case Ended => 0
  }

  function CallerSteps(caller: Caller): nat
  {
    match caller
    case Selecting => 3
    case Cancelling(_) => 2
    case Joined(_) => 1
    case Done(_) => 0
  }

  /** Steps the whole call has left, at most. */
  function StepsLeft(s: State): nat
  {
    AllSteps(s.workers) + BackupSteps(s) + CallerSteps(s.caller)
    + (if s.tail.Querying? then 1 else 0) + (if s.ctxDone then 0 else 1)
  }

  lemma WorkerStepDecreases(s: State, e: Event, original: seq<string>)
    requires Sound(s, original) && s.Enabled(e) && e.OfWorker()
    ensures AllSteps(s.Step(e).workers) < AllSteps(s.workers)
    ensures BackupSteps(s.Step(e)) <= BackupSteps(s) && CallerSteps(s.Step(e).caller) <= CallerSteps(s.caller)
    ensures s.Step(e).tail == s.tail && s.Step(e).ctxDone == s.ctxDone
  {
    hide ResultSound, WorkersSound, LeaderSound, ListsAligned, ShapeSound, AllQueried, AllLearned, AllSteps;
    AllStepsUpdate(s.workers, e.i, s.Step(e).workers[e.i]);
  }

  lemma OtherStepDecreases(s: State, e: Event, original: seq<string>)
    requires Sound(s, original) && s.Enabled(e) && !e.OfWorker()
    ensures StepsLeft(s.Step(e)) < StepsLeft(s)
  {
    hide ResultSound, WorkersSound, LeaderSound, ListsAligned, AllQueried, AllLearned, AllSteps;
    if e.Spawn? && s.backup.next != s.lead {
      AllStepsAppend(s.workers, Worker(s.backup.next, s.backup.next, Starting));
    }
  }

  lemma StepDecreases(s: State, e: Event, original: seq<string>)
    requires Sound(s, original) && s.Enabled(e)
    ensures StepsLeft(s.Step(e)) < StepsLeft(s)
  {
    hide Sound, State.Step, State.Enabled, AllSteps, BackupSteps, CallerSteps;
    if e.OfWorker() {
      WorkerStepDecreases(s, e, original);
    } else {
      OtherStepDecreases(s, e, original);
    }
  }

  /** No step is possible, unless the caller's context ends. */
  ghost predicate Quiet(s: State)
  {
    forall e :: e != Expire ==> !s.Enabled(e)
  }

  lemma QuietAt(s: State, e: Event)
    requires Quiet(s) && e != Expire
    ensures !s.Enabled(e)
  {
    hide State.Enabled;
  }

  lemma QuietWorker(s: State, original: seq<string>, i: nat)
    requires Sound(s, original) && Quiet(s) && i < |s.workers|
    ensures s.workers[i].pc.Returned?
  {
    hide Quiet, LeaderSound, ListsAligned, ShapeSound, CoverageSound, AllLearned;
    assert WorkerSound(s, s.workers[i]);
    QuietAt(s, Read(i));
    QuietAt(s, Return(i, Failed));
    QuietAt(s, Search(i));
    QuietAt(s, Append(i));
    QuietAt(s, Store(i));
    QuietAt(s, Send(i));
    QuietAt(s, GiveUp(i));
    QuietAt(s, Cancel);
  }

  lemma QuietBackup(s: State)
    requires Quiet(s) && forall i :: 0 <= i < |s.workers| ==> s.workers[i].pc.Returned?
    ensures s.backup.Ended?
  {
    hide Quiet;
    QuietAt(s, Timer);
    QuietAt(s, Snapshot);
    QuietAt(s, Spawn);
    QuietAt(s, Spawned);
    QuietAt(s, Join);
  }

  lemma QuietCaller(s: State)
    requires Quiet(s) && ResultSound(s) && s.backup.Ended? && 0 < |s.workers| && s.workers[0].pc.Returned?
    ensures if s.SubDone() then s.caller.Done? else s.caller.Selecting?
  {
    hide Quiet;
    QuietAt(s, FinishLeader);
    QuietAt(s, Abandon);
    QuietAt(s, Cancel);
    QuietAt(s, WaitOver);
  }

  /** Once the context is cancelled or over nothing can block: when no step is left the call
      has returned. Without that it can wait for ever only if every meta server it was given,
      and every one it learned of, failed or forwarded. */
  lemma QuietMeansOver(s: State, original: seq<string>)
    requires Sound(s, original) && Quiet(s)
    ensures forall i :: 0 <= i < |s.workers| ==> s.workers[i].pc.Returned?
    ensures s.SubDone() ==> s.caller.Done?
    ensures !s.SubDone() ==>
              && s.caller.Selecting? && AllQueried(s, |original|) && AllLearned(s, original)
              && forall i :: 0 <= i < |s.workers| ==> s.workers[i].pc == Returned(false)
  {
    hide LeaderSound, ListsAligned, ResultSound, AllQueried, AllLearned, Quiet, State.Enabled;
    forall i | 0 <= i < |s.workers|
      ensures s.workers[i].pc.Returned?
    {
      QuietWorker(s, original, i);
    }
    QuietBackup(s);
    QuietCaller(s);
    forall i | 0 <= i < |s.workers| && !s.SubDone()
      ensures s.workers[i].pc == Returned(false)
    {
      assert WorkerSound(s, s.workers[i]);
    }
  }

  lemma {:induction false} RunKeeps(s: State, run: seq<Event>, original: seq<string>)
    requires Sound(s, original) && IsRun(s, run)
    ensures Sound(After(s, run), original)
    ensures |run| + StepsLeft(After(s, run)) <= StepsLeft(s)
    decreases |run|
  {
    hide Sound, State.Step, State.Enabled, StepsLeft;
    if run != [] {
      StepKeeps(s, run[0], original);
      StepDecreases(s, run[0], original);
      RunKeeps(s.Step(run[0]), run[1..], original);
    }
  }

  /** What the caller may rely on: the lists are aligned and only grow, the leader is an entry
      of them, and at most one response, not a forward, has been passed on; on return every
      goroutine has ended, and without a response the context is over. */
  ghost predicate Dependable(s: State, original: seq<string>, lead: nat)
  {
    && s.metas == s.addrs && original <= s.addrs
    && s.newLead < |s.metas| && (s.newLead == lead || s.newLead in s.answered)
    && |s.delivered| <= 1 && (forall r <- s.delivered :: !r.Forwards())
    && (s.caller.Done? ==>
          && (forall i :: 0 <= i < |s.workers| ==> s.workers[i].pc.Returned?)
          && (if s.caller.result.None? then s.ctxDone
              else s.delivered == [s.caller.result.value] && s.newLead in s.answered))
  }

  lemma SoundIsDependable(s: State, original: seq<string>)
    requires Sound(s, original)
    ensures Dependable(s, original, s.lead)
  {
    hide WorkersSound, CoverageSound, AllLearned;
  }

  lemma InitialSteps(addrs: seq<string>, lead: nat)
    ensures StepsLeft(Initial(addrs, lead)) == 8 * |addrs| + 24
  {
    AllStepsAppend([], Worker(lead, lead, Starting));
    assert Initial(addrs, lead).workers == [] + [Worker(lead, lead, Starting)];
  }

  /** What holds at every moment of every call. */
  lemma EveryRun(addrs: seq<string>, lead: nat, run: seq<Event>)
    requires lead < |addrs| && IsRun(Initial(addrs, lead), run)
    ensures Dependable(After(Initial(addrs, lead), run), addrs, lead)
    ensures |run| <= 8 * |addrs| + 24
  {
    hide Sound, Dependable, StepsLeft, IsRun, After;
    var s0 := Initial(addrs, lead);
    InitialSound(addrs, lead);
    InitialSteps(addrs, lead);
    RunKeeps(s0, run, addrs);
    LeadConstant(s0, run);
    SoundIsDependable(After(s0, run), addrs);
  }

  lemma {:induction false} LeadConstant(s: State, run: seq<Event>)
    requires IsRun(s, run)
    ensures After(s, run).lead == s.lead
    decreases |run|
  {
    if run != [] {
      LeadConstant(s.Step(run[0]), run[1..]);
    }
  }

  /** Once its context is over or cancelled, a call can be driven to its return, whatever the
      meta servers do; by `QuietMeansOver` it cannot come to rest anywhere else. */
  lemma {:induction false} CancelledCallReturns(s: State, original: seq<string>) returns (run: seq<Event>)
    requires Sound(s, original) && s.SubDone()
    ensures IsRun(s, run) && After(s, run).caller.Done?
    decreases StepsLeft(s)
  {
    hide Sound, State.Step, State.Enabled, StepsLeft;
    if Quiet(s) {
      QuietMeansOver(s, original);
      run := [];
    } else {
      var e :| e != Expire && s.Enabled(e);
      StepKeeps(s, e, original);
      StepDecreases(s, e, original);
      StaysDone(s, e);
      var rest := CancelledCallReturns(s.Step(e), original);
      run := [e] + rest;
    }
  }

  lemma StaysDone(s: State, e: Event)
    requires s.Enabled(e) && s.SubDone()
    ensures s.Step(e).SubDone()
  {
  }
}
