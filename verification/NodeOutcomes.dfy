/** Where the outcomes of a session come from: what a caller gets was read off the connection, or
    its write failed, in the run at hand. */
module NodeOutcomes {

  import opened Common
  import opened NodeSession

  function ReadIn(e: Event): set<Outcome>
  {
    if e.Read? then {Reply(e.seqId, e.body)} else {}
  }

  /** The replies read in a run. */
  function Reads(run: seq<Event>): set<Outcome>
  {
    if run == [] then {}
    else ReadIn(run[0]) + Reads(run[1..])
  }

  lemma {:induction false} ReadsInRun(run: seq<Event>, id: int, body: int)
    ensures Reply(id, body) in Reads(run) <==> Read(id, body) in run
  {
    if run != [] {
      ReadsInRun(run[1..], id, body);
      assert run == [run[0]] + run[1..];
    }
  }

  function FailsIn(s: State, e: Event): set<nat>
    requires s.Enabled(e)
  {
    if e.WriteFail? then {s.req.c} else {}
  }

  /** The calls whose write failed in a run. */
  ghost function FailedWrites(s: State, run: seq<Event>): set<nat>
    requires IsRun(s, run)
    decreases |run|
  {
    if run == [] then {}
    else FailsIn(s, run[0]) + FailedWrites(s.Step(run[0]), run[1..])
  }

  ghost predicate From(outcome: Outcome, c: nat, heard: set<Outcome>, fails: set<nat>)
  {
    if outcome.WriteFailed? then c in fails else outcome in heard
  }

  /** Every outcome on its way to a caller comes from a read or from a failed write. */
  ghost predicate Traced(s: State, heard: set<Outcome>, fails: set<nat>)
  {
    && (s.resp.Looking? || s.resp.Matched? ==> s.resp.reply.Reply? && s.resp.reply in heard)
    && forall c :: 0 <= c < |s.calls| ==> CallTraced(s.calls[c], c, heard, fails)
  }

  ghost predicate CallTraced(call: Call, c: nat, heard: set<Outcome>, fails: set<nat>)
  {
    && (call.outcome.Some? ==> From(call.outcome.value, c, heard, fails))
    && (call.phase.Got? && call.phase.outcome.Some? ==> From(call.phase.outcome.value, c, heard, fails))
  }

  lemma StepKeepsTraced(s: State, e: Event, heard: set<Outcome>, fails: set<nat>)
    requires s.Enabled(e) && Traced(s, heard, fails)
    ensures Traced(s.Step(e), heard + ReadIn(e), fails + FailsIn(s, e))
  {
    hide SeqId;
    var heard' := heard + ReadIn(e);
    var fails' := fails + FailsIn(s, e);
    var s' := s.Step(e);
    forall c | 0 <= c < |s'.calls|
      ensures CallTraced(s'.calls[c], c, heard', fails')
    {
      if c < |s.calls| {
        assert CallTraced(s.calls[c], c, heard, fails);
      }
    }
  }

  lemma {:induction false} RunKeepsTraced(s: State, run: seq<Event>, heard: set<Outcome>, fails: set<nat>)
    requires IsRun(s, run) && Traced(s, heard, fails)
    ensures Traced(After(s, run), heard + Reads(run), fails + FailedWrites(s, run))
    decreases |run|
  {
    hide State.Step, State.Enabled, Traced;
    if run == [] {
      assert heard + {} == heard && fails + {} == fails;
    } else {
      var e := run[0];
      var heard' := heard + ReadIn(e);
      var fails' := fails + FailsIn(s, e);
      StepKeepsTraced(s, e, heard, fails);
      RunKeepsTraced(s.Step(e), run[1..], heard', fails');
      assert heard + Reads(run) == heard' + Reads(run[1..]);
      assert fails + FailedWrites(s, run) == fails' + FailedWrites(s.Step(e), run[1..]);
    }
  }

  /** In every run, whatever a caller got was read off the connection under the caller's own
      sequence id, or is the failure of its own write. */
  lemma OutcomesFromRun(run: seq<Event>, c: nat)
    requires IsRun(INITIAL, run) && !After(INITIAL, run).panicked
    requires c < |After(INITIAL, run).calls| && After(INITIAL, run).calls[c].phase.Got?
    ensures var got := After(INITIAL, run).calls[c].phase.outcome;
            || (got == Some(WriteFailed) && c in FailedWrites(INITIAL, run))
            || exists body :: got == Some(Reply(SeqId(c), body)) && Read(SeqId(c), body) in run
  {
    hide IsRun, After, SeqId, FailedWrites;
    EveryRun(run);
    RunKeepsTraced(INITIAL, run, {}, {});
    var s := After(INITIAL, run);
    assert Served(s, c) && CallTraced(s.calls[c], c, {} + Reads(run), {} + FailedWrites(INITIAL, run));
    var got := s.calls[c].phase.outcome;
    if got != Some(WriteFailed) {
      var body :| got == Some(Reply(SeqId(c), body));
      ReadsInRun(run, SeqId(c), body);
    }
  }
}
