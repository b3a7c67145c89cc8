/** The firmware's shared run state and the lock sections that touch it, each proved to take exactly
    one step of the run protocol. */
module Board {
  import opened Options
  import opened RunRecord
  import opened RunProtocol
  import opened RunTheorems
  import RunIdentity
  import EventRing
  import CStrings

  class Board {
    const nonce: RunIdentity.U32
    const run: DbRun
    const ring: EventRing.EventRing
    var runCounter: RunIdentity.U32
    var eventSeq: nat
    var marker: Marker
    var previous: Option<string>
    // The protocol state this board is in.
    ghost var proto: State

    /** The variables are those of a reachable protocol state. */
    ghost predicate Valid()
      reads this, run, ring, ring.slots
    {
      && Reachable(proto)
      && proto.nonce == nonce
      && proto.cur == run.View()
      && proto.seqNo == eventSeq
      && proto.marker == marker
      && proto.previous == previous
      && runCounter == |proto.issued| % RunIdentity.COUNTER_RANGE
      && ring.Valid()
      && Numbered()
    }

    /** The ring has seen the protocol's committed events, with the numbers it gave their slots. */
    ghost predicate Numbered()
      reads this, ring
    {
      && |ring.history| == |Commits(proto.log)|
      && forall i :: 0 <= i < |ring.history| ==> ring.history[i].seqNo == Commits(proto.log)[i].slotSeq
    }

    /** app_main, up to its first event: the marker is read once and consumed. */
    constructor (nonce: RunIdentity.U32, softwareReset: bool, rtc: Marker)
      ensures Valid() && fresh(run) && fresh(ring) && fresh(ring.slots)
      ensures proto == BootState(nonce, softwareReset, rtc)
    {
      this.nonce := nonce;
      run := new DbRun();
      ring := new EventRing.EventRing();
      runCounter, eventSeq := 0, 0;
      var found := rtc;
      if !softwareReset {
        found := found.(valid := false);
      }
      var reported: Option<string> := None;
      if found.valid {
        reported := Some(found.runId);
        found := found.(valid := false);
      }
      marker, previous := found, reported;
      proto := BootState(nonce, softwareReset, rtc);
      assert Runs(BootState(nonce, softwareReset, rtc), [], BootState(nonce, softwareReset, rtc));
    }

    /** The protocol goes on without this board's variables. */
    ghost method StepElsewhere(a: Action)
      requires Valid() && Enabled(proto, a) && Elsewhere(proto, a)
      modifies this`proto
      ensures Valid() && proto == Apply(old(proto), a)
    {
      ReachableStep(proto, a);
      ElsewhereAlone(proto, a);
      proto := Apply(proto, a);
    }

    /** The lock section of a run submission: refused while a run is active. */
    method Admit(request: Request, nowMs: nat) returns (id: Option<string>)
      requires Valid() && proto.HttpUp() && !proto.restarting && Acceptable(request) && nowMs == proto.now
      modifies this`runCounter, this`proto, run
      ensures Valid()
      ensures id == None <==> old(proto).cur.Active()
      ensures id == None ==> proto == old(proto)
      ensures id.Some? ==> proto == Apply(old(proto), RunProtocol.Admit(request)) && id.value == proto.cur.runId
    {
      if run.state == Running || run.state == Aborting {
        return None;
      }
      var name := BeginNext(request, nowMs);
      return Some(name);
    }

    /** The section's second half: the next identifier, and the record begun anew. */
    method BeginNext(request: Request, nowMs: nat) returns (name: string)
      requires Valid() && Enabled(proto, RunProtocol.Admit(request)) && nowMs == proto.now
      modifies this`runCounter, this`proto, run
      ensures Valid() && proto == Apply(old(proto), RunProtocol.Admit(request)) && name == proto.cur.runId
    {
      ReachableStep(proto, RunProtocol.Admit(request));
      AdmissionAlone(proto, request, runCounter);
      runCounter := (runCounter + 1) % RunIdentity.COUNTER_RANGE;
      name := RunIdentity.RunId(nonce, runCounter);
      run.BeginRun(request, name, nowMs);
      proto := Apply(proto, RunProtocol.Admit(request));
    }

    /** The second lock section of a submission whose task could not be created. */
    method CloseUnspawned(nowMs: nat)
      requires Valid() && Enabled(proto, SpawnFails) && nowMs == proto.now
      modifies this`proto, run
      ensures Valid() && proto == Apply(old(proto), SpawnFails)
    {
      ReachableStep(proto, SpawnFails);
      run.FinishRun(Fail, nowMs);
      proto := Apply(proto, SpawnFails);
    }

    /** An abort request: a malformed path is refused, and so is any run that is not running. */
    method AbortPost(uri: string) returns (ok: bool)
      requires Valid() && proto.HttpUp() && !proto.restarting && |uri| >= |RunIdentity.PREFIX|
      modifies this`proto, run
      ensures Valid()
      ensures ok ==> old(proto).issued != []
      ensures ok <==> old(proto).cur.state == Running
                      && RunIdentity.PathRunId(uri, true, RunIdentity.RUN_ID_LEN) == Some(old(proto).cur.runId)
      ensures !ok ==> proto == old(proto)
      ensures ok ==> proto == Apply(old(proto), AbortRequest(old(proto).cur.runId))
    {
      var id := RunIdentity.PathRunId(uri, true, RunIdentity.RUN_ID_LEN);
      if id.None? { return false; }
      ok := run.AbortRun(id.value);
      if ok {
        ActiveIsIssued(proto);
        ReachableStep(proto, AbortRequest(id.value));
        proto := Apply(proto, AbortRequest(id.value));
      }
    }

    /** run_get: what is told of a run, when the path names the one in the record. */
    method RunGet(uri: string) returns (told: Option<(Workload, RunState, Verdict)>)
      requires Valid() && |uri| >= |RunIdentity.PREFIX|
      ensures told.Some? <==> RunIdentity.PathRunId(uri, false, RunIdentity.RUN_ID_LEN) == Some(proto.cur.runId)
      ensures told.Some? ==> told.value == (proto.cur.request.workload, proto.cur.state, proto.cur.verdict)
      ensures told.Some? ==> proto.issued != []
    {
      var id := RunIdentity.PathRunId(uri, false, RunIdentity.RUN_ID_LEN);
      if id.None? || id.value != run.runId { return None; }
      UnnamedUntilIssued(proto);
      return Some((run.request.workload, run.state, run.verdict));
    }

    /** should_abort. */
    method ShouldAbort() returns (aborted: bool)
      requires Valid()
      ensures aborted == proto.cur.abortRequested
    {
      aborted := run.abortRequested;
    }

    /** A workload task's first lock section: it takes its own copy of the run. */
    method CopyRun(ghost n: nat) returns (copy: Run)
      requires Valid() && Enabled(proto, Copy(n))
      modifies this`proto
      ensures Valid() && proto == Apply(old(proto), Copy(n)) && copy == proto.workers[n].run
    {
      ReachableStep(proto, Copy(n));
      copy := run.View();
      proto := Apply(proto, Copy(n));
    }

    /** The unlocked half of an emission: the number that goes into the event's text. */
    method TakeEventNumber(ghost a: Action) returns (no: nat)
      requires Valid() && Enabled(proto, a)
      requires a.TakeNumber? || (a.BootStep? && proto.boot.BootNumbering?)
      modifies this`eventSeq, this`proto
      ensures Valid() && proto == Apply(old(proto), a)
      ensures a.TakeNumber? ==> proto.workers[a.n].pc == Committing(old(proto).workers[a.n].pc.kind, no)
      ensures a.BootStep? ==> proto.boot == BootCommitting(old(proto).boot.kind, no)
    {
      ReachableStep(proto, a);
      eventSeq := eventSeq + 1;
      no := eventSeq;
      proto := Apply(proto, a);
    }

    /** The locked half: the slot gets the counter as it stands by now, and the text. */
    method CommitEventText(ghost a: Action, text: string)
      requires Valid() && Enabled(proto, a) && CStrings.NulFree(text)
      requires a.CommitEvent? || (a.BootStep? && proto.boot.BootCommitting?)
      modifies this`proto, ring, ring.slots
      ensures Valid() && proto == Apply(old(proto), a)
      ensures ring.history == old(ring.history) + [EventRing.Stored(Commits(proto.log)[|Commits(proto.log)| - 1].slotSeq,
                                                                    if |text| <= 511 then text else text[..511])]
    {
      ReachableStep(proto, a);
      CommitAlone(proto, a);
      ring.Commit(eventSeq, text);
      proto := Apply(proto, a);
    }

    /** The verdict, from the abort flag and what the body returned. */
    method SettleVerdict(ghost n: nat, ok: bool) returns (verdict: Verdict)
      requires Valid() && Enabled(proto, Decide(n)) && ok == proto.workers[n].ok
      modifies this`proto
      ensures Valid() && proto == Apply(old(proto), Decide(n)) && VerdictOf(proto.log, n) == Some(verdict)
    {
      ReachableStep(proto, Decide(n));
      var aborted := ShouldAbort();
      verdict := if aborted then Aborted else if ok then Pass else Fail;
      proto := Apply(proto, Decide(n));
    }

    /** Whether to emit a fault: the flag is read a second time, and only if the body failed. */
    method ReportsFault(ghost n: nat, ok: bool) returns (fault: bool)
      requires Valid() && Enabled(proto, Recheck(n)) && ok == proto.workers[n].ok
      modifies this`proto
      ensures Valid() && proto == Apply(old(proto), Recheck(n))
      ensures proto.workers[n].pc == Numbering(if fault then Fault else PhaseEnd)
    {
      ReachableStep(proto, Recheck(n));
      fault := false;
      if !ok {
        var aborted := ShouldAbort();
        fault := !aborted;
      }
      proto := Apply(proto, Recheck(n));
    }

    /** The worker's release of the shared record. */
    method CompleteRun(ghost n: nat, verdict: Verdict, nowMs: nat)
      requires Valid() && Enabled(proto, RunProtocol.FinishRun(n)) && nowMs == proto.now
      requires verdict == proto.workers[n].verdict
      modifies this`proto, run
      ensures Valid() && proto == Apply(old(proto), RunProtocol.FinishRun(n))
    {
      ReachableStep(proto, RunProtocol.FinishRun(n));
      run.FinishRun(verdict, nowMs);
      proto := Apply(proto, RunProtocol.FinishRun(n));
    }

    /** The reboot check, on whatever run is in the record by then. */
    method ShouldRestart(ghost n: nat, workload: Workload, ok: bool) returns (restart: bool)
      requires Valid() && Enabled(proto, CheckTail(n))
      requires workload == proto.workers[n].run.request.workload && ok == proto.workers[n].ok
      modifies this`proto
      ensures Valid() && proto == Apply(old(proto), CheckTail(n))
      ensures proto.workers[n].pc == if restart then Marking else Gone
    {
      ReachableStep(proto, CheckTail(n));
      restart := false;
      if workload == ControlledReboot && ok {
        var aborted := ShouldAbort();
        restart := !aborted;
      }
      proto := Apply(proto, CheckTail(n));
    }

    /** The marker left for the next boot. */
    method LeaveMarker(ghost n: nat, runId: string)
      requires Valid() && Enabled(proto, WriteMarker(n)) && runId == proto.workers[n].run.runId
      modifies this`marker, this`proto
      ensures Valid() && proto == Apply(old(proto), WriteMarker(n))
    {
      ReachableStep(proto, WriteMarker(n));
      marker := Marker(true, runId);
      proto := Apply(proto, WriteMarker(n));
    }
  }

  lemma UnnamedUntilIssued(s: State)
    requires Reachable(s)
    ensures s.issued == [] ==> s.cur.runId == ""
  {
    ReachableInv(s);
  }

  lemma ActiveIsIssued(s: State)
    requires Reachable(s)
    ensures s.cur.Active() ==> s.issued != []
  {
    ReachableInv(s);
  }

  /** What an admission changes, and what it leaves alone, the counter standing at c. */
  lemma AdmissionAlone(s: State, request: Request, c: RunIdentity.U32)
    requires Enabled(s, RunProtocol.Admit(request)) && c == |s.issued| % RunIdentity.COUNTER_RANGE
    ensures var t := Apply(s, RunProtocol.Admit(request));
            && t.nonce == s.nonce && t.seqNo == s.seqNo && t.marker == s.marker && t.previous == s.previous
            && t.issued != [] && |t.issued| % RunIdentity.COUNTER_RANGE == (c + 1) % RunIdentity.COUNTER_RANGE
            && t.cur == Begin(request, RunIdentity.RunId(s.nonce, (c + 1) % RunIdentity.COUNTER_RANGE), s.now)
            && Commits(t.log) == Commits(s.log)
  {
    CounterAdvances(|s.issued|);
  }

  /** A commit adds the event, with the counter as it stands, and changes nothing else here. */
  lemma CommitAlone(s: State, a: Action)
    requires Enabled(s, a) && (a.CommitEvent? || (a.BootStep? && s.boot.BootCommitting?))
    ensures var t := Apply(s, a);
            && t.nonce == s.nonce && t.seqNo == s.seqNo && t.marker == s.marker && t.previous == s.previous
            && t.cur == s.cur && t.issued == s.issued
            && t.log.Snoc? && t.log.last.Committed? && t.log.last.event.slotSeq == s.seqNo
            && Commits(t.log) == Commits(s.log) + [t.log.last.event]
  {
  }

  /** The steps that touch none of the board's variables: the passing of time, the start of the server
      and of a task, the two ends of a workload's body, and the restart. */
  predicate Elsewhere(s: State, a: Action) {
    || a.Tick? || a.Spawn? || a.EnterBody? || a.EndBody? || a.Restart?
    || (a.BootStep? && s.boot.StartingHttp?)
  }

  lemma ElsewhereAlone(s: State, a: Action)
    requires Enabled(s, a) && Elsewhere(s, a)
    ensures var t := Apply(s, a);
            && t.nonce == s.nonce && t.seqNo == s.seqNo && t.marker == s.marker && t.previous == s.previous
            && t.cur == s.cur && t.issued == s.issued && Commits(t.log) == Commits(s.log)
  {
  }

  lemma CounterAdvances(n: nat)
    ensures (n % RunIdentity.COUNTER_RANGE + 1) % RunIdentity.COUNTER_RANGE == (n + 1) % RunIdentity.COUNTER_RANGE
  {
  }
}
