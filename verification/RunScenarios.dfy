/** Runs of the protocol in which a natural claim fails, step by step from boot. */
module RunScenarios {
  import opened Options
  import opened RunRecord
  import opened RunProtocol
  import opened RunTheorems
  import RunIdentity

  const REBOOT_REQUEST := Request(ControlledReboot, 1, 0, 0, "")

  /** The server is up for a first submission; the boot task has its last event to emit. */
  ghost predicate Up(s: State) {
    && Reachable(s) && !s.restarting && s.boot == BootNumbering(Ready)
    && s.issued == [] && s.workers == map[] && s.cur == IdleRun() && VerdictOf(s.log, 0) == None
  }

  /** The first run's task stands at pc, and its run is in the record. */
  ghost predicate First(s: State, pc: Pc) {
    && Reachable(s) && !s.restarting && s.boot == BootNumbering(Ready)
    && |s.issued| == 1 && !s.creating && At(s, 0, pc)
    && (pc != Spawned ==> s.workers[0].run.request == REBOOT_REQUEST)
  }

  lemma HttpComesUp(nonce: RunIdentity.U32) returns (s: State)
    ensures Up(s)
  {
    var s0 := BootState(nonce, false, Marker(false, ""));
    assert Runs(s0, [], s0);
    s := s0;
    for i := 0 to 5
      invariant Reachable(s) && !s.restarting && s.issued == [] && s.workers == map[] && s.cur == IdleRun()
      invariant VerdictOf(s.log, 0) == None
      invariant i == 0 ==> s.boot == BootNumbering(BootEvent)
      invariant i == 1 ==> s.boot.BootCommitting? && s.boot.kind == BootEvent
      invariant i == 2 ==> s.boot == BootNumbering(ResetReason)
      invariant i == 3 ==> s.boot.BootCommitting? && s.boot.kind == ResetReason
      invariant i == 4 ==> s.boot == StartingHttp
      invariant i == 5 ==> s.boot == BootNumbering(Ready)
    {
      ReachableStep(s, BootStep);
      s := Apply(s, BootStep);
    }
  }

  /** A worker about to emit can do so undisturbed. */
  lemma EmitUndisturbed(s: State, n: nat) returns (t: State)
    requires Reachable(s) && !s.restarting && n in s.workers && s.workers[n].pc.Numbering?
    ensures Reachable(t) && t.(workers := s.workers, log := s.log, seqNo := s.seqNo) == s
    ensures t.workers == s.workers[n := s.workers[n].(pc := AfterCommit(s.workers[n].pc.kind))]
    ensures VerdictOf(t.log, n) == VerdictOf(s.log, n)
  {
    var u := Apply(s, TakeNumber(n));
    ReachableStep(s, TakeNumber(n));
    t := Apply(u, CommitEvent(n));
    ReachableStep(u, CommitEvent(n));
  }

  lemma RunIsSpawned(s: State) returns (t: State)
    requires Up(s)
    ensures First(t, Spawned) && t.cur.state == Running && t.cur.request == REBOOT_REQUEST
  {
    var u := Apply(s, Admit(REBOOT_REQUEST));
    ReachableStep(s, Admit(REBOOT_REQUEST));
    t := Apply(u, Spawn);
    ReachableStep(u, Spawn);
  }

  lemma RunStarts(nonce: RunIdentity.U32) returns (s: State)
    ensures First(s, Numbering(PhaseStart)) && s.cur.state == Running
  {
    var up := HttpComesUp(nonce);
    var t := RunIsSpawned(up);
    ReachableStep(t, Copy(0));
    s := Apply(t, Copy(0));
  }

  // ---- An aborted run restarts the board --------------------------------------------------

  /** A reboot run can wait out its duration ... */
  lemma RunWaits(s: State) returns (t: State)
    requires First(s, EnteringBody) && s.cur.state == Running
    ensures First(t, Deciding) && t.workers[0].ok && t.cur.state == Running
  {
    ReachableStep(s, EnterBody(0));
    var entered := Apply(s, EnterBody(0));
    t := BodyEnds(entered);
  }

  lemma BodyEnds(s: State) returns (t: State)
    requires First(s, InBody) && s.cur.state == Running && s.workers[0].enteredAt == s.now
    ensures First(t, Deciding) && t.workers[0].ok && t.cur.state == Running
  {
    var u := Apply(s, Tick(1));
    ReachableStep(s, Tick(1));
    t := Apply(u, EndBody(0, true));
    ReachableStep(u, EndBody(0, true));
  }

  /** ... be aborted before its verdict is settled ... */
  lemma RunIsAborted(s: State) returns (t: State)
    requires First(s, Deciding) && s.workers[0].ok && s.cur.state == Running
    ensures First(t, Deciding) && t.workers[0].ok && t.cur.abortRequested
  {
    ReachableStep(s, AbortRequest(s.cur.runId));
    t := Apply(s, AbortRequest(s.cur.runId));
  }

  lemma AbortedRunDecides(s: State) returns (t: State)
    requires First(s, Deciding) && s.workers[0].ok && s.cur.abortRequested
    ensures First(t, Numbering(PhaseEnd)) && t.workers[0].ok && VerdictOf(t.log, 0) == Some(Aborted)
  {
    var u := Apply(s, Decide(0));
    ReachableStep(s, Decide(0));
    t := Apply(u, Recheck(0));
    ReachableStep(u, Recheck(0));
  }

  /** ... and finish, whereupon another run is admitted before its last event ... */
  lemma RunIsOvertaken(s: State) returns (t: State)
    requires First(s, Finishing)
    ensures Reachable(t) && !t.restarting && 0 in t.workers
    ensures t.workers[0] == s.workers[0].(pc := Numbering(RunComplete))
    ensures !t.cur.abortRequested && VerdictOf(t.log, 0) == VerdictOf(s.log, 0)
  {
    var u := Apply(s, FinishRun(0));
    ReachableStep(s, FinishRun(0));
    t := Apply(u, Admit(REBOOT_REQUEST));
    ReachableStep(u, Admit(REBOOT_REQUEST));
  }

  /** ... which wipes the abort flag, so that its reboot check leads to the marker ... */
  lemma OvertakenRunMarks(s: State) returns (t: State)
    requires Reachable(s) && !s.restarting && At(s, 0, Tail) && s.workers[0].ok
    requires s.workers[0].run.request == REBOOT_REQUEST && !s.cur.abortRequested
    ensures Reachable(t) && !t.restarting && At(t, 0, Restarting)
    ensures LastMarked(t.log) == Some(0) && VerdictOf(t.log, 0) == VerdictOf(s.log, 0)
  {
    var u := Apply(s, CheckTail(0));
    ReachableStep(s, CheckTail(0));
    t := Apply(u, WriteMarker(0));
    ReachableStep(u, WriteMarker(0));
  }

  lemma AbortedRunFinishes(nonce: RunIdentity.U32) returns (s: State)
    ensures First(s, Finishing) && s.workers[0].ok && VerdictOf(s.log, 0) == Some(Aborted)
  {
    s := RunStarts(nonce);
    s := EmitUndisturbed(s, 0);
    s := RunWaits(s);
    s := RunIsAborted(s);
    s := AbortedRunDecides(s);
    s := EmitUndisturbed(s, 0);
  }

  /** ... and to the restart. So the result of a run that restarts the board is not always "pass". */
  lemma AbortedRunCanRestart(nonce: RunIdentity.U32) returns (s: State)
    ensures Reachable(s) && s.restarting && LastMarked(s.log) == Some(0) && VerdictOf(s.log, 0) == Some(Aborted)
  {
    var t := AbortedRunFinishes(nonce);
    t := RunIsOvertaken(t);
    t := EmitUndisturbed(t, 0);
    t := OvertakenRunMarks(t);
    ReachableStep(t, Restart(0));
    s := Apply(t, Restart(0));
  }

  // ---- An event's two numbers differ ------------------------------------------------------

  /** The first run takes a number, the boot task takes the next one, and the run's event then lies in
      the ring with the boot task's number beside its own. */
  lemma NumbersCanDiffer(nonce: RunIdentity.U32) returns (s: State)
    ensures Reachable(s) && s.log.Snoc? && s.log.last.Committed? && s.log.last.source == WorkerTask(0)
    ensures s.log.last.event.slotSeq == s.log.last.event.seqNo + 1
  {
    var s0 := RunStarts(nonce);
    var s1 := Apply(s0, TakeNumber(0));
    ReachableStep(s0, TakeNumber(0));
    var s2 := Apply(s1, BootStep);
    ReachableStep(s1, BootStep);
    s := Apply(s2, CommitEvent(0));
    ReachableStep(s2, CommitEvent(0));
  }
}
