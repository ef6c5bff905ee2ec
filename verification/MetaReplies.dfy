/** What the meta servers said in the course of a call, and how it explains the outcome: whose
    response is returned, whom the new leader stands for, where new metas come from and why a
    call can wait for ever. */
module MetaReplies {

  import opened Common
  import opened MetaCall

  /** What came of asking a meta server. */
  datatype Told = Told(meta: string, result: CallResult)

  function Said(s: State, e: Event): set<Told>
    requires s.Enabled(e)
  {
    if e.Return? then {Told(s.workers[e.i].pc.meta, e.r)} else {}
  }

  /** Everything the meta servers said in a run. */
  function Replies(s: State, run: seq<Event>): set<Told>
    requires IsRun(s, run)
    decreases |run|
  {
    if run == [] then {} else Said(s, run[0]) + Replies(s.Step(run[0]), run[1..])
  }

  ghost predicate Returns(run: seq<Event>, r: CallResult)
  {
    exists i: nat :: Return(i, r) in run
  }

  lemma {:induction false} RepliesReturned(s: State, run: seq<Event>, t: Told)
    requires IsRun(s, run) && t in Replies(s, run)
    ensures Returns(run, t.result)
    decreases |run|
  {
    hide State.Step, State.Enabled;
    if t in Said(s, run[0]) {
      assert Return(run[0].i, t.result) in run;
    } else {
      RepliesReturned(s.Step(run[0]), run[1..], t);
      var i: nat :| Return(i, t.result) in run[1..];
      assert Return(i, t.result) in run;
    }
  }

  ghost predicate Given(told: set<Told>, resp: Response)
  {
    exists t <- told :: t.result == Replied(resp)
  }

  ghost predicate Asked(told: set<Told>, meta: string)
  {
    exists t <- told :: t.meta == meta
  }

  /** The meta gave a reply that is not a forward. */
  ghost predicate AnsweredBy(told: set<Told>, meta: string)
  {
    exists t <- told :: t.meta == meta && t.result.Replied? && !t.result.resp.Forwards()
  }

  ghost predicate ForwardedTo(told: set<Told>, addr: string)
  {
    exists t <- told :: t.result.Replied? && t.result.resp.Forwards() && t.result.resp.forward == Some(addr)
  }

  /** The call failed, or was forwarded, after a first call to nowhere or to a listed meta. */
  ghost predicate NoAnswer(s: State, w: Worker, r: CallResult)
  {
    || r.Failed?
    || (r.resp.Forwards() && (w.curLeader == w.origin && r.resp.forward.Some? ==> r.resp.forward.value in s.addrs))
  }

  ghost predicate Declined(s: State, told: set<Told>, w: Worker)
    requires w.curLeader < |s.metas|
  {
    exists t <- told :: t.meta == s.metas[w.curLeader] && NoAnswer(s, w, t.result)
  }

  /** What a goroutine has in hand was said by the meta it is concerned with. */
  ghost predicate WorkerKnows(s: State, told: set<Told>, w: Worker)
  {
    && w.curLeader < |s.metas| && w.origin < |s.metas|
    && (w.pc.Starting? || w.pc.Calling? || Asked(told, s.metas[w.origin]))
    && match w.pc
       case Searching(addr) => w.curLeader == w.origin && SaidForward(s, told, w, addr)
       case Appending(addr) => ForwardedTo(told, addr)
       case Recalling(_) => w.curLeader != w.origin
       case Storing(resp) => !resp.Forwards() && Told(s.metas[w.curLeader], Replied(resp)) in told
       case Sending(resp) => !resp.Forwards() && Told(s.metas[w.curLeader], Replied(resp)) in told
       case Returned(ok) => ok || Declined(s, told, w)
       case _ => true
  }

  ghost predicate SaidForward(s: State, told: set<Told>, w: Worker, addr: string)
    requires w.curLeader < |s.metas|
  {
    exists t <- told :: t.meta == s.metas[w.curLeader] && t.result.Replied? && t.result.resp.Forwards() && t.result.resp.forward == Some(addr)
  }

  ghost predicate WorkersKnow(s: State, told: set<Told>)
  {
    forall i :: 0 <= i < |s.workers| ==> WorkerKnows(s, told, s.workers[i])
  }

  /** The response is with a goroutine, or one has ended with a response. */
  ghost predicate Held(s: State, resp: Response)
  {
    exists i :: 0 <= i < |s.workers| && Holds(s.workers[i], resp)
  }

  predicate Holds(w: Worker, resp: Response)
  {
    w.pc == Storing(resp) || w.pc == Sending(resp) || w.pc == Returned(true)
  }

  /** Everything in the state comes from what was said, and no answer is dropped. */
  ghost predicate Explained(s: State, told: set<Told>, original: seq<string>)
  {
    && (forall k <- s.answered :: k < |s.metas| && AnsweredBy(told, s.metas[k]))
    && (forall r <- s.delivered :: Given(told, r))
    && (forall k :: |original| <= k < |s.addrs| ==> ForwardedTo(told, s.addrs[k]))
    && (forall t <- told :: t.result.Replied? && !t.result.resp.Forwards() ==> Held(s, t.result.resp))
  }

  lemma KnowsMore(s: State, told: set<Told>, more: set<Told>, w: Worker)
    requires WorkerKnows(s, told, w) && told <= more
    ensures WorkerKnows(s, more, w)
  {
  }

  /** What a goroutine knows survives the steps of the others. */
  lemma BystanderKnows(s: State, e: Event, told: set<Told>, w: Worker)
    requires s.metas == s.addrs && s.Enabled(e) && WorkerKnows(s, told, w)
    ensures WorkerKnows(s.Step(e), told, w)
  {
    hide ForwardedTo, Asked, AnsweredBy;
    var s' := s.Step(e);
    assert s.metas <= s'.metas && s.addrs <= s'.addrs;
    if w.pc == Returned(false) {
      var t :| t in told && t.meta == s.metas[w.curLeader] && NoAnswer(s, w, t.result);
      assert t.meta == s'.metas[w.curLeader] && NoAnswer(s', w, t.result);
    }
  }

  /** The step of a goroutine itself, with what is said in it. */
  lemma ActorKnows(s: State, e: Event, told: set<Told>)
    requires s.metas == s.addrs && s.Enabled(e) && e.OfWorker()
    requires WorkerSound(s, s.workers[e.i]) && WorkerKnows(s, told, s.workers[e.i])
    ensures |s.Step(e).workers| == |s.workers| && WorkerKnows(s.Step(e), told + Said(s, e), s.Step(e).workers[e.i])
  {
    var s', more, w := s.Step(e), told + Said(s, e), s.workers[e.i];
    var w' := s'.workers[e.i];
    KnowsMore(s, told, more, w);
    match e
    case Return(i, r) =>
      var t := Told(s.metas[w.curLeader], r);
      assert t in more && w'.curLeader == w.curLeader && s'.metas == s.metas;
      if w'.pc.Returned? {
        assert NoAnswer(s', w', t.result);
      }
    case Search(i) =>
      if w.pc.addr in s.addrs {
        var t :| t in told && t.meta == s.metas[w.curLeader] && t.result.Replied? && t.result.resp.Forwards() && t.result.resp.forward == Some(w.pc.addr);
        assert t in more && NoAnswer(s', w', t.result);
      }
    case _ =>
  }

  lemma StepKeepsKnowing(s: State, e: Event, told: set<Told>, original: seq<string>)
    requires Sound(s, original) && s.Enabled(e) && WorkersKnow(s, told)
    ensures WorkersKnow(s.Step(e), told + Said(s, e))
  {
    hide WorkerKnows, WorkerSound, CoverageSound, ResultSound, AllLearned;
    var s', more := s.Step(e), told + Said(s, e);
    forall i | 0 <= i < |s'.workers|
      ensures WorkerKnows(s', more, s'.workers[i])
    {
      if e.OfWorker() && i == e.i {
        ActorKnows(s, e, told);
      } else if i < |s.workers| {
        BystanderKnows(s, e, told, s.workers[i]);
        KnowsMore(s', told, more, s'.workers[i]);
      } else {
        SpawnedKnows(s', more, s'.workers[i]);
      }
    }
  }

  lemma SpawnedKnows(s: State, told: set<Told>, w: Worker)
    requires w.curLeader < |s.metas| && w.origin == w.curLeader && w.pc.Starting?
    ensures WorkerKnows(s, told, w)
  {
  }

  /** An answer stays with its goroutine until that ends with a response. */
  lemma HeldStays(s: State, e: Event, resp: Response)
    requires s.Enabled(e) && Held(s, resp)
    ensures Held(s.Step(e), resp)
  {
    var i :| 0 <= i < |s.workers| && Holds(s.workers[i], resp);
    assert Holds(s.Step(e).workers[i], resp);
  }

  lemma SaidIsHeld(s: State, e: Event, t: Told)
    requires s.Enabled(e) && t in Said(s, e) && t.result.Replied? && !t.result.resp.Forwards()
    ensures Held(s.Step(e), t.result.resp)
  {
    assert Holds(s.Step(e).workers[e.i], t.result.resp);
  }

  lemma StepKeepsAnswers(s: State, e: Event, told: set<Told>)
    requires s.Enabled(e)
    requires forall t <- told :: t.result.Replied? && !t.result.resp.Forwards() ==> Held(s, t.result.resp)
    ensures forall t <- told + Said(s, e) :: t.result.Replied? && !t.result.resp.Forwards() ==> Held(s.Step(e), t.result.resp)
  {
    hide Held, State.Step, State.Enabled, Said;
    forall t | t in told + Said(s, e) && t.result.Replied? && !t.result.resp.Forwards()
      ensures Held(s.Step(e), t.result.resp)
    {
      if t in told {
        HeldStays(s, e, t.result.resp);
      } else {
        SaidIsHeld(s, e, t);
      }
    }
  }

  lemma SaidMore(told: set<Told>, more: set<Told>)
    requires told <= more
    ensures forall meta :: AnsweredBy(told, meta) ==> AnsweredBy(more, meta)
    ensures forall addr :: ForwardedTo(told, addr) ==> ForwardedTo(more, addr)
    ensures forall resp :: Given(told, resp) ==> Given(more, resp)
  {
  }

  lemma StepKeepsExplained(s: State, e: Event, told: set<Told>, original: seq<string>)
    requires Sound(s, original) && s.Enabled(e) && WorkersKnow(s, told) && Explained(s, told, original)
    ensures Explained(s.Step(e), told + Said(s, e), original)
  {
    hide WorkerSound, CoverageSound, ResultSound, AllLearned, ShapeSound, Held, AnsweredBy, ForwardedTo, Given, Asked, Declined, SaidForward;
    var s', more := s.Step(e), told + Said(s, e);
    StepKeepsAnswers(s, e, told);
    SaidMore(told, more);
    if e.OfWorker() {
      var w := s.workers[e.i];
      assert WorkerKnows(s, told, w) && WorkerSound(s, w);
      if e.Return? {
        NewAnswer(s, e, more);
      } else if e.Send? {
        assert Given(told, w.pc.resp) by {
          GivenBy(told, Told(s.metas[w.curLeader], Replied(w.pc.resp)));
        }
      }
    }
  }

  lemma GivenBy(told: set<Told>, t: Told)
    requires t in told && t.result.Replied?
    ensures Given(told, t.result.resp)
    ensures !t.result.resp.Forwards() ==> AnsweredBy(told, t.meta)
  {
  }

  lemma NewAnswer(s: State, e: Event, more: set<Told>)
    requires s.Enabled(e) && e.Return? && Said(s, e) <= more && WorkerSound(s, s.workers[e.i])
    ensures forall k <- s.Step(e).answered :: k in s.answered || (k < |s.metas| && AnsweredBy(more, s.metas[k]))
  {
    hide AnsweredBy;
    var w := s.workers[e.i];
    if e.r.Replied? {
      GivenBy(more, Told(w.pc.meta, e.r));
    }
  }

  lemma {:induction false} RunExplained(s: State, run: seq<Event>, told: set<Told>, original: seq<string>)
    requires Sound(s, original) && IsRun(s, run) && WorkersKnow(s, told) && Explained(s, told, original)
    ensures WorkersKnow(After(s, run), told + Replies(s, run)) && Explained(After(s, run), told + Replies(s, run), original)
    decreases |run|
  {
    hide Sound, State.Step, State.Enabled, WorkersKnow, Explained, Said;
    if run == [] {
      assert told + {} == told;
    } else {
      StepKeeps(s, run[0], original);
      StepKeepsKnowing(s, run[0], told, original);
      StepKeepsExplained(s, run[0], told, original);
      RunExplained(s.Step(run[0]), run[1..], told + Said(s, run[0]), original);
      assert told + Replies(s, run) == (told + Said(s, run[0])) + Replies(s.Step(run[0]), run[1..]);
    }
  }

  lemma InitialExplained(addrs: seq<string>, lead: nat)
    requires lead < |addrs|
    ensures WorkersKnow(Initial(addrs, lead), {}) && Explained(Initial(addrs, lead), {}, addrs)
  {
  }

  lemma CallExplained(addrs: seq<string>, lead: nat, run: seq<Event>)
    requires lead < |addrs| && IsRun(Initial(addrs, lead), run)
    ensures var s, told := After(Initial(addrs, lead), run), Replies(Initial(addrs, lead), run);
            Sound(s, addrs) && WorkersKnow(s, told) && Explained(s, told, addrs)
  {
    hide Sound, IsRun, After, Replies, WorkersKnow, Explained;
    var s := Initial(addrs, lead);
    InitialSound(addrs, lead);
    InitialExplained(addrs, lead);
    RunKeeps(s, run, addrs);
    RunExplained(s, run, {}, addrs);
    assert {} + Replies(s, run) == Replies(s, run);
  }

  /** At every moment of every call: a response passed on is one that a meta server gave in the
      run, a leader other than the first stands for a meta that answered, and every address not
      given was named by a forward. */
  lemma RepliesExplain(addrs: seq<string>, lead: nat, run: seq<Event>)
    requires lead < |addrs| && IsRun(Initial(addrs, lead), run)
    ensures var s, told := After(Initial(addrs, lead), run), Replies(Initial(addrs, lead), run);
            && (forall r <- s.delivered :: Returns(run, Replied(r)))
            && s.newLead < |s.metas|
            && (s.newLead != lead || s.delivered != [] ==> AnsweredBy(told, s.metas[s.newLead]))
            && (forall k :: |addrs| <= k < |s.addrs| ==> ForwardedTo(told, s.addrs[k]))
  {
    hide IsRun, After, Replies, WorkersKnow, AnsweredBy, ForwardedTo, Returns, WorkersSound, CoverageSound, AllLearned, Held, ShapeSound;
    var s0 := Initial(addrs, lead);
    var s, told := After(s0, run), Replies(s0, run);
    CallExplained(addrs, lead, run);
    LeadConstant(s0, run);
    forall r | r in s.delivered
      ensures Returns(run, Replied(r))
    {
      assert Given(told, r);
      var t :| t in told && t.result == Replied(r);
      RepliesReturned(s0, run, t);
    }
    assert s.delivered != [] ==> s.newLead in s.answered;
  }

  /** A call that waits for ever has asked every meta server it was given and every one it learned
      of, and none of them answered. */
  lemma WaitsUnanswered(addrs: seq<string>, lead: nat, run: seq<Event>)
    requires lead < |addrs| && IsRun(Initial(addrs, lead), run)
    requires var s := After(Initial(addrs, lead), run); Quiet(s) && !s.SubDone()
    ensures var s, told := After(Initial(addrs, lead), run), Replies(Initial(addrs, lead), run);
            && (forall k :: 0 <= k < |s.metas| ==> Asked(told, s.metas[k]))
            && (forall t <- told :: t.result.Failed? || t.result.resp.Forwards())
  {
    hide IsRun, After, Replies, Quiet, State.Enabled, Asked, AnsweredBy, ForwardedTo, Given, SaidForward;
    var s0 := Initial(addrs, lead);
    var s, told := After(s0, run), Replies(s0, run);
    CallExplained(addrs, lead, run);
    QuietMeansOver(s, addrs);
    forall k: nat | k < |s.metas|
      ensures Asked(told, s.metas[k])
    {
      if k < |addrs| {
        assert Queried(s, k);
        assert WorkerKnows(s, told, s.workers[SlotOf(k, s.lead)]);
      } else {
        assert Learned(s, k);
        var i :| 0 <= i < |s.workers| && s.workers[i].curLeader == k && s.workers[i].origin != k;
        assert WorkerKnows(s, told, s.workers[i]);
        DeclinedAsked(s, told, s.workers[i]);
      }
    }
  }

  /** A leader that answers: the call returns its answer and keeps it as the leader. */
  lemma LeaderAnswers(addrs: seq<string>, lead: nat, resp: Response) returns (run: seq<Event>)
    requires lead < |addrs| && !resp.Forwards()
    ensures IsRun(Initial(addrs, lead), run)
    ensures var s := After(Initial(addrs, lead), run);
            s.caller == Done(Some(resp)) && s.newLead == lead && s.addrs == addrs
  {
    hide IsRun, After;
    var s0 := Initial(addrs, lead);
    var s1 := s0.Step(Read(0));
    var s2 := s1.Step(Return(0, Replied(resp)));
    var s3 := s2.Step(Store(0));
    var s4 := s3.Step(Send(0));
    var late := CallOver(s4, resp);
    Prepend(s3, Send(0), late);
    Prepend(s2, Store(0), [Send(0)] + late);
    Prepend(s1, Return(0, Replied(resp)), [Store(0)] + ([Send(0)] + late));
    Prepend(s0, Read(0), [Return(0, Replied(resp))] + ([Store(0)] + ([Send(0)] + late)));
    run := [Read(0)] + ([Return(0, Replied(resp))] + ([Store(0)] + ([Send(0)] + late)));
  }

  lemma CallOver(s: State, resp: Response) returns (run: seq<Event>)
    requires |s.workers| == 1 && s.workers[0].pc == Returned(true) && s.tail.Querying? && s.backup.Waiting?
    requires s.caller == Cancelling(Some(resp))
    ensures IsRun(s, run)
    ensures var s' := After(s, run);
            s'.caller == Done(Some(resp)) && s'.newLead == s.newLead && s'.addrs == s.addrs
  {
    hide IsRun, After;
    var s1 := s.Step(Cancel);
    var s2 := s1.Step(FinishLeader);
    var s3 := s2.Step(SkipBackup);
    var s4 := s3.Step(WaitOver);
    Stop(s4);
    Prepend(s3, WaitOver, []);
    Prepend(s2, SkipBackup, [WaitOver] + []);
    Prepend(s1, FinishLeader, [SkipBackup] + ([WaitOver] + []));
    Prepend(s, Cancel, [FinishLeader] + ([SkipBackup] + ([WaitOver] + [])));
    run := [Cancel] + ([FinishLeader] + ([SkipBackup] + ([WaitOver] + [])));
  }

  lemma DeclinedAsked(s: State, told: set<Told>, w: Worker)
    requires w.curLeader < |s.metas| && Declined(s, told, w)
    ensures Asked(told, s.metas[w.curLeader])
  {
  }

  /** The manager's view of the meta servers, which a successful call replaces. */
  class MetaManager {
    var metaIPAddrs: seq<string>
    var metas: seq<string>
    var currentLeader: nat

    ghost predicate Valid()
      reads this
    {
      metas == metaIPAddrs && currentLeader < |metas|
    }

    constructor (addrs: seq<string>)
      requires |addrs| > 0
      ensures Valid() && metaIPAddrs == addrs && currentLeader == 0
    {
      metaIPAddrs, metas, currentLeader := addrs, addrs, 0;
    }

    /** One call that ran as `run` says. */
    method Call(run: seq<Event>) returns (resp: Option<Response>)
      requires Valid()
      requires var s := Initial(metaIPAddrs, currentLeader); IsRun(s, run) && After(s, run).caller.Done?
      modifies this
      ensures Valid() && old(metaIPAddrs) <= metaIPAddrs
      // A response is one that a meta server gave; its leader answered, and new metas were named
      // by a forward.
      ensures var s := After(Initial(old(metaIPAddrs), old(currentLeader)), run);
              && resp == s.caller.result
              && (resp.Some? ==>
                    && !resp.value.Forwards() && Returns(run, Replied(resp.value))
                    && metaIPAddrs == s.addrs && currentLeader == s.newLead && currentLeader in s.answered)
              && (resp.Some? ==>
                    var told := Replies(Initial(old(metaIPAddrs), old(currentLeader)), run);
                    && AnsweredBy(told, metaIPAddrs[currentLeader])
                    && forall k :: |old(metaIPAddrs)| <= k < |metaIPAddrs| ==> ForwardedTo(told, metaIPAddrs[k]))
              && (resp.None? ==>
                    && s.ctxDone
                    && metaIPAddrs == old(metaIPAddrs) && currentLeader == old(currentLeader))
    {
      hide IsRun, After, Replies, Returns, AnsweredBy, ForwardedTo;
      EveryRun(metaIPAddrs, currentLeader, run);
      RepliesExplain(metaIPAddrs, currentLeader, run);
      var s := After(Initial(metaIPAddrs, currentLeader), run);
      resp := s.caller.result;
      if resp.Some? {
        assert resp.value in s.delivered;
        currentLeader := s.newLead;
        metas := s.metas;
        metaIPAddrs := s.addrs;
      }
    }
  }
}
