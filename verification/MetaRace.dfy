/** When a call to the meta servers can list an address twice: the lock is free between the
    search for a forwarded address and its append. */
module MetaRace {

  import opened Common
  import opened MetaCall

  /** No address is listed twice, and none is about to be. */
  ghost predicate NoDuplicates(s: State)
  {
    && Distinct(s.addrs)
    && (forall i :: 0 <= i < |s.workers| && s.workers[i].pc.Appending? ==> s.workers[i].pc.addr !in s.addrs)
    && (forall i, j :: 0 <= i < j < |s.workers| && s.workers[i].pc.Appending? && s.workers[j].pc.Appending? ==>
          s.workers[i].pc.addr != s.workers[j].pc.addr)
  }

  /** A search that misses an address another goroutine has already missed: the lock is free
      between the search and the append. */
  ghost predicate Races(s: State, e: Event)
  {
    && e.Search? && e.i < |s.workers| && s.workers[e.i].pc.Searching?
    && s.workers[e.i].pc.addr !in s.addrs
    && exists j :: 0 <= j < |s.workers| && s.workers[j].pc == Appending(s.workers[e.i].pc.addr)
  }

  /** Addresses stay distinct exactly as long as no search races an append. */
  lemma DistinctUnlessRace(s: State, e: Event)
    requires s.Enabled(e) && NoDuplicates(s)
    ensures NoDuplicates(s.Step(e)) <==> !Races(s, e)
  {
    if Races(s, e) {
      var s' := s.Step(e);
      var addr := s.workers[e.i].pc.addr;
      var j :| 0 <= j < |s.workers| && s.workers[j].pc == Appending(addr);
      assert s'.workers[j].pc == Appending(addr) && s'.workers[e.i].pc == Appending(addr) && j != e.i;
    } else if e.Search? {
      SearchKeepsDistinct(s, e);
    } else if e.Append? {
      AppendKeepsDistinct(s, e);
    } else {
      NewAppends(s, e);
    }
  }

  lemma NewAppends(s: State, e: Event)
    requires s.Enabled(e) && !e.Search? && !e.Append?
    ensures var s' := s.Step(e);
            && s'.addrs == s.addrs
            && forall i :: 0 <= i < |s'.workers| && s'.workers[i].pc.Appending? ==>
                 i < |s.workers| && s'.workers[i].pc == s.workers[i].pc
  {
  }

  lemma SearchKeepsDistinct(s: State, e: Event)
    requires e.Search? && s.Enabled(e) && NoDuplicates(s) && !Races(s, e)
    ensures NoDuplicates(s.Step(e))
  {
  }

  lemma AppendKeepsDistinct(s: State, e: Event)
    requires e.Append? && s.Enabled(e) && NoDuplicates(s)
    ensures NoDuplicates(s.Step(e))
  {
    var s', addr := s.Step(e), s.workers[e.i].pc.addr;
    assert s'.addrs == s.addrs + [addr];
    forall i | 0 <= i < |s'.workers| && s'.workers[i].pc.Appending?
      ensures s'.workers[i].pc.addr !in s'.addrs
    {
      assert i != e.i && s'.workers[i] == s.workers[i];
    }
  }

  /** Whether some step of the run races. */
  ghost predicate RunRaces(s: State, run: seq<Event>)
    requires IsRun(s, run)
    decreases |run|
  {
    run != [] && (Races(s, run[0]) || RunRaces(s.Step(run[0]), run[1..]))
  }

  /** A run without a race keeps the addresses distinct. */
  lemma {:induction false} DistinctWithoutRace(s: State, run: seq<Event>)
    requires IsRun(s, run) && NoDuplicates(s) && !RunRaces(s, run)
    ensures NoDuplicates(After(s, run))
    decreases |run|
  {
    hide NoDuplicates, State.Step, State.Enabled, Races;
    if run != [] {
      DistinctUnlessRace(s, run[0]);
      DistinctWithoutRace(s.Step(run[0]), run[1..]);
    }
  }

  /** A race can always be driven to a duplicate: both goroutines append. */
  lemma RaceDuplicates(s: State, e: Event) returns (run: seq<Event>)
    requires s.Enabled(e) && Races(s, e)
    ensures IsRun(s, [e] + run) && !Distinct(After(s, [e] + run).addrs)
  {
    hide IsRun, After;
    var addr := s.workers[e.i].pc.addr;
    var j :| 0 <= j < |s.workers| && s.workers[j].pc == Appending(addr);
    var s1 := s.Step(e);
    var s2 := s1.Step(Append(e.i));
    var s3 := s2.Step(Append(j));
    Stop(s3);
    Prepend(s2, Append(j), []);
    assert [Append(j)] + [] == [Append(j)];
    Prepend(s1, Append(e.i), [Append(j)]);
    run := [Append(e.i)] + [Append(j)];
    Prepend(s, e, run);
    var n := |s.addrs|;
    assert s3.addrs == s.addrs + [addr] + [addr];
    assert s3.addrs[n] == s3.addrs[n + 1];
  }

  /** From distinct addresses, the addresses can become duplicated exactly if a race can occur:
      a run to a duplicate contains a race, and a run up to a race extends to a duplicate. */
  lemma DuplicateIffRace(addrs: seq<string>, lead: nat)
    requires Distinct(addrs)
    ensures var s := Initial(addrs, lead);
            (exists run :: IsRun(s, run) && !Distinct(After(s, run).addrs))
            <==> exists run, e :: RacesAfter(s, run, e)
  {
    hide IsRun, After, State.Step, State.Enabled, Races, Distinct;
    var s := Initial(addrs, lead);
    NoneAppending(addrs, lead);
    if run :| IsRun(s, run) && !Distinct(After(s, run).addrs) {
      if !RunRaces(s, run) {
        DistinctWithoutRace(s, run);
        assert NoDuplicates(After(s, run));
      } else {
        var before, e := FirstRace(s, run);
        assert RacesAfter(s, before, e);
      }
    }
    if run, e :| RacesAfter(s, run, e) {
      var more := RaceDuplicates(After(s, run), e);
      RunConcat(s, run, [e] + more);
    }
  }

  lemma NoneAppending(addrs: seq<string>, lead: nat)
    requires Distinct(addrs)
    ensures NoDuplicates(Initial(addrs, lead))
  {
  }

  ghost predicate RacesAfter(s: State, run: seq<Event>, e: Event)
  {
    IsRun(s, run) && After(s, run).Enabled(e) && Races(After(s, run), e)
  }

  lemma {:induction false} FirstRace(s: State, run: seq<Event>) returns (before: seq<Event>, e: Event)
    requires IsRun(s, run) && RunRaces(s, run)
    ensures RacesAfter(s, before, e)
    decreases |run|
  {
    hide State.Step, State.Enabled, Races;
    if Races(s, run[0]) {
      before, e := [], run[0];
    } else {
      before, e := FirstRace(s.Step(run[0]), run[1..]);
      Prepend(s, run[0], before);
      before := [run[0]] + before;
    }
  }

  lemma {:induction false} RunConcat(s: State, run: seq<Event>, more: seq<Event>)
    requires IsRun(s, run) && IsRun(After(s, run), more)
    ensures IsRun(s, run + more) && After(s, run + more) == After(After(s, run), more)
    decreases |run|
  {
    hide State.Step, State.Enabled;
    if run == [] {
      assert run + more == more;
    } else {
      RunConcat(s.Step(run[0]), run[1..], more);
      assert (run + more)[1..] == run[1..] + more;
    }
  }

  /** Two goroutines that look for the same unlisted address: both searches miss it before
      either goroutine appends it. */
  lemma TwoSearches(s: State, a: nat, b: nat, addr: string) returns (run: seq<Event>)
    requires a < |s.workers| && b < |s.workers| && a != b && addr !in s.addrs
    requires s.workers[a].pc == Searching(addr) && s.workers[b].pc == Searching(addr)
    ensures IsRun(s, run) && After(s, run).addrs == s.addrs + [addr, addr]
  {
    hide IsRun, After;
    var s1 := s.Step(Search(a));
    var s2 := s1.Step(Search(b));
    var s3 := s2.Step(Append(a));
    var s4 := s3.Step(Append(b));
    assert s4.addrs == s.addrs + [addr] + [addr] == s.addrs + [addr, addr];
    Stop(s4);
    Prepend(s3, Append(b), []);
    Prepend(s2, Append(a), [Append(b)] + []);
    Prepend(s1, Search(b), [Append(a)] + ([Append(b)] + []));
    Prepend(s, Search(a), [Search(b)] + ([Append(a)] + ([Append(b)] + [])));
    run := [Search(a)] + ([Search(b)] + ([Append(a)] + ([Append(b)] + [])));
  }

  /** The replies that send both goroutines searching. */
  lemma TwoForwards(s: State, a: nat, b: nat, addr: string) returns (run: seq<Event>)
    requires a < |s.workers| && b < |s.workers| && a != b && addr !in s.addrs
    requires s.workers[a].pc.Starting? && s.workers[a].curLeader < |s.metas|
    requires s.workers[b].pc.Starting? && s.workers[b].curLeader < |s.metas|
    ensures IsRun(s, run) && After(s, run).addrs == s.addrs + [addr, addr]
  {
    hide IsRun, After;
    var forward := Replied(Response(ErrForwardToOthers, Some(addr), 0));
    var s1 := s.Step(Read(a));
    var s2 := s1.Step(Read(b));
    var s3 := s2.Step(Return(a, forward));
    var s4 := s3.Step(Return(b, forward));
    var last := TwoSearches(s4, a, b, addr);
    Prepend(s3, Return(b, forward), last);
    Prepend(s2, Return(a, forward), [Return(b, forward)] + last);
    var late := [Return(a, forward)] + ([Return(b, forward)] + last);
    Prepend(s1, Read(b), late);
    Prepend(s, Read(a), [Read(b)] + late);
    run := [Read(a)] + ([Read(b)] + late);
  }

  /** Three metas, the second and third of which forward to a fourth: a run of the call ends
      with the fourth listed twice. */
  lemma AddressListedTwice() returns (run: seq<Event>)
    ensures var s := Initial(["a", "b", "c"], 0);
            IsRun(s, run) && After(s, run).addrs == ["a", "b", "c", "d", "d"]
  {
    hide IsRun, After;
    var s0 := Initial(["a", "b", "c"], 0);
    var s1 := s0.Step(Timer);
    var s2 := s1.Step(Snapshot);
    var s3 := s2.Step(Spawn);
    var s4 := s3.Step(Spawn);
    var s5 := s4.Step(Spawn);
    assert s5.workers == [Worker(0, 0, Starting), Worker(1, 1, Starting), Worker(2, 2, Starting)];
    var late := TwoForwards(s5, 1, 2, "d");
    Prepend(s4, Spawn, late);
    Prepend(s3, Spawn, [Spawn] + late);
    Prepend(s2, Spawn, [Spawn] + ([Spawn] + late));
    late := [Spawn] + ([Spawn] + ([Spawn] + late));
    Prepend(s1, Snapshot, late);
    Prepend(s0, Timer, [Snapshot] + late);
    run := [Timer] + ([Snapshot] + late);
  }

  function MaxLength(addrs: seq<string>): nat
  {
    if addrs == [] then 0
    else
      var n := MaxLength(addrs[1..]);
      if n < |addrs[0]| then |addrs[0]| else n
  }

  lemma {:induction false} LengthsBounded(addrs: seq<string>, addr: string)
    requires addr in addrs
    ensures |addr| <= MaxLength(addrs)
  {
    if addr != addrs[0] {
      LengthsBounded(addrs[1..], addr);
    }
  }

  lemma FreshAddress(addrs: seq<string>) returns (addr: string)
    ensures addr !in addrs
  {
    addr := seq(MaxLength(addrs) + 1, _ => 'x');
    if addr in addrs {
      LengthsBounded(addrs, addr);
    }
  }

  /** With two metas the leader and a backup can be forwarded to the same new address. */
  lemma SecondMetaDuplicates(addrs: seq<string>, lead: nat) returns (run: seq<Event>)
    requires lead < |addrs| && |addrs| > 1
    ensures IsRun(Initial(addrs, lead), run) && !Distinct(After(Initial(addrs, lead), run).addrs)
  {
    hide IsRun, After;
    var addr := FreshAddress(addrs);
    var s0 := Initial(addrs, lead);
    var s1 := s0.Step(Timer);
    var s2 := s1.Step(Snapshot);
    var s3 := s2.Step(Spawn);
    var late: seq<Event>;
    if lead == 0 {
      var s4 := s3.Step(Spawn);
      assert s4.workers == [Worker(0, 0, Starting), Worker(1, 1, Starting)];
      late := TwoForwards(s4, 0, 1, addr);
      Prepend(s3, Spawn, late);
      late := [Spawn] + late;
    } else {
      assert s3.workers == [Worker(lead, lead, Starting), Worker(0, 0, Starting)];
      late := TwoForwards(s3, 0, 1, addr);
    }
    Prepend(s2, Spawn, late);
    Prepend(s1, Snapshot, [Spawn] + late);
    Prepend(s0, Timer, [Snapshot] + ([Spawn] + late));
    run := [Timer] + ([Snapshot] + ([Spawn] + late));
    var n, listed := |addrs|, After(s0, run).addrs;
    assert listed == addrs + [addr, addr];
    assert listed[n] == listed[n + 1];
  }

  /** With a single meta a second goroutine exists only once the leader's append is done. */
  ghost predicate Alone(s: State)
  {
    && 0 < |s.workers| <= 2 && s.lead == 0
    && (|s.workers| == 2 ==> s.workers[0].Behind())
    && match s.backup
       case Waiting => AloneSoFar(s)
       case Snapshotting => AloneSoFar(s)
       case Spawning(snapshot, next) =>
         snapshot <= 2 && (snapshot == 2 ==> s.workers[0].Behind()) && (next <= 1 ==> |s.workers| == 1)
       case _ => true
  }

  ghost predicate AloneSoFar(s: State)
    requires 0 < |s.workers|
  {
    |s.workers| == 1 && |s.metas| <= 2 && (|s.metas| == 2 ==> s.workers[0].Behind())
  }

  /** No step leads from behind an append back before it. */
  lemma WorkerKeepsAlone(s: State, e: Event)
    requires Alone(s) && s.Enabled(e) && e.OfWorker()
    ensures Alone(s.Step(e))
  {
    var s' := s.Step(e);
    assert s'.backup == s.backup && |s'.workers| == |s.workers|;
    assert s.workers[0].Behind() ==> s'.workers[0].Behind();
    assert s'.metas == s.metas || (|s'.metas| == |s.metas| + 1 && e.Append?);
  }

  lemma StepKeepsAlone(s: State, e: Event)
    requires Alone(s) && s.Enabled(e)
    ensures Alone(s.Step(e))
  {
    if e.OfWorker() {
      hide State.Step, State.Enabled, Alone;
      WorkerKeepsAlone(s, e);
    }
  }

  /** While one goroutine is about to append, no other is searching. */
  lemma AloneCannotRace(s: State, e: Event)
    requires Alone(s)
    ensures !Races(s, e)
  {
    hide State.Step, State.Enabled;
  }

  lemma {:induction false} NeverRacesAlone(s: State, run: seq<Event>)
    requires Alone(s) && IsRun(s, run)
    ensures !RunRaces(s, run)
    decreases |run|
  {
    hide State.Step, State.Enabled, Alone, Races;
    if run != [] {
      StepKeepsAlone(s, run[0]);
      AloneCannotRace(s, run[0]);
      NeverRacesAlone(s.Step(run[0]), run[1..]);
    }
  }

  /** From distinct addresses a call can come to list an address twice if and only if it was
      given more than one meta server. */
  lemma DuplicateIffMany(addrs: seq<string>, lead: nat)
    requires Distinct(addrs) && lead < |addrs|
    ensures (exists run :: IsRun(Initial(addrs, lead), run) && !Distinct(After(Initial(addrs, lead), run).addrs))
       <==> |addrs| > 1
  {
    hide IsRun, After, Distinct;
    var s := Initial(addrs, lead);
    if |addrs| > 1 {
      var run := SecondMetaDuplicates(addrs, lead);
    } else {
      forall run | IsRun(s, run)
        ensures Distinct(After(s, run).addrs)
      {
        NoneAppending(addrs, lead);
        NeverRacesAlone(s, run);
        DistinctWithoutRace(s, run);
      }
    }
  }
}
