/** The lock sections put together: a board boots, is asked for a controlled reboot, and nothing else
    happens to it. */
module RebootRun {
  import opened Options
  import opened RunRecord
  import opened RunProtocol
  import RunIdentity
  import CStrings
  import opened Board

  /** The one run of the session stands at pc, undisturbed. */
  ghost predicate Only(s: State, pc: Pc, request: Request) {
    && s.boot.BootDone? && !s.restarting && !s.creating
    && |s.issued| == 1 && s.issued[0].request == request
    && At(s, 0, pc) && !s.cur.abortRequested
    && s.cur.runId == s.issued[0].runId && s.cur.request == request
    && (pc != Spawned ==> s.workers[0].run.request == request && s.workers[0].run.runId == s.cur.runId)
  }

  /** One of the boot task's emissions. */
  method EmitAtBoot(board: Board, text: string)
    requires board.Valid() && !board.proto.restarting && board.proto.boot.BootNumbering? && CStrings.NulFree(text)
    modifies board, board.ring, board.ring.slots
    ensures board.Valid() && board.proto.boot == AfterBootCommit(old(board.proto).boot.kind)
    ensures board.proto == old(board.proto).(boot := board.proto.boot, seqNo := board.proto.seqNo, log := board.proto.log)
    ensures |Commits(board.proto.log)| == |Commits(old(board.proto).log)| + 1
  {
    var no := board.TakeEventNumber(BootStep);
    board.CommitEventText(BootStep, text);
  }

  function AfterBootCommit(kind: Kind): BootPc {
    if kind == BootEvent then BootNumbering(ResetReason)
    else if kind == ResetReason then StartingHttp
    else BootDone
  }

  /** app_main, as far as the run state goes. */
  method BootUp(nonce: RunIdentity.U32, softwareReset: bool, rtc: Marker, texts: seq<string>) returns (board: Board)
    requires |texts| == 3 && forall t :: t in texts ==> CStrings.NulFree(t)
    ensures fresh(board) && fresh(board.run) && fresh(board.ring) && fresh(board.ring.slots) && board.Valid()
    ensures board.proto.boot.BootDone? && !board.proto.restarting && board.proto.nonce == nonce
    ensures board.proto.issued == [] && board.proto.workers == map[] && !board.proto.cur.Active()
    ensures |Commits(board.proto.log)| == 3 && board.proto.now == 0
  {
    board := new Board(nonce, softwareReset, rtc);
    EmitAtBoot(board, texts[0]);
    EmitAtBoot(board, texts[1]);
    board.StepElsewhere(BootStep);
    EmitAtBoot(board, texts[2]);
  }

  /** One of the workload task's emissions. */
  method Emit(board: Board, text: string)
    requires board.Valid() && !board.proto.restarting && 0 in board.proto.workers && CStrings.NulFree(text)
    requires board.proto.workers[0].pc.Numbering?
    modifies board, board.ring, board.ring.slots
    ensures board.Valid()
    ensures board.proto.workers == old(board.proto).workers[0 :=
                                     old(board.proto).workers[0].(pc := AfterCommit(old(board.proto).workers[0].pc.kind))]
    ensures board.proto
            == old(board.proto).(workers := board.proto.workers, seqNo := board.proto.seqNo, log := board.proto.log)
    ensures VerdictOf(board.proto.log, 0) == VerdictOf(old(board.proto).log, 0)
    ensures |Commits(board.proto.log)| == |Commits(old(board.proto).log)| + 1
  {
    var no := board.TakeEventNumber(TakeNumber(0));
    board.CommitEventText(CommitEvent(0), text);
  }

  /** The handler, and the worker's copy. */
  method Begin(board: Board, request: Request, nowMs: nat) returns (id: string)
    requires board.Valid() && board.proto.boot.BootDone? && !board.proto.restarting && Acceptable(request)
    requires board.proto.issued == [] && !board.proto.cur.Active() && nowMs == board.proto.now
    modifies board, board.run
    ensures board.Valid() && Only(board.proto, Numbering(PhaseStart), request)
    ensures id == board.proto.cur.runId == IssuedId(board.proto.nonce, 0)
    ensures Commits(board.proto.log) == Commits(old(board.proto).log)
    ensures board.proto.now == nowMs == board.proto.cur.startedMs && board.proto.nonce == old(board.proto).nonce
  {
    var admitted := board.Admit(request, nowMs);
    id := admitted.value;
    SpawnWorker(board, request);
  }

  method SpawnWorker(board: Board, request: Request)
    requires board.Valid() && board.proto.boot.BootDone? && !board.proto.restarting && board.proto.creating
    requires |board.proto.issued| == 1 && board.proto.issued[0].request == request == board.proto.cur.request
    requires board.proto.issued[0].runId == board.proto.cur.runId && !board.proto.cur.abortRequested
    modifies board
    ensures board.Valid() && Only(board.proto, Numbering(PhaseStart), request)
    ensures board.proto == old(board.proto).(creating := false, workers := board.proto.workers)
  {
    board.StepElsewhere(Spawn);
    var copy := board.CopyRun(0);
  }

  /** The body waits its time out, and the verdict is settled without a fault to report. */
  method WaitAndSettle(board: Board, request: Request)
    requires board.Valid() && Only(board.proto, EnteringBody, request) && request.workload.Waits()
    modifies board
    ensures board.Valid() && Only(board.proto, Numbering(PhaseEnd), request)
    ensures board.proto.workers[0].ok && board.proto.workers[0].verdict == Pass
    ensures VerdictOf(board.proto.log, 0) == Some(Pass) && Commits(board.proto.log) == Commits(old(board.proto).log)
    ensures board.proto.now == old(board.proto).now + request.durationMs
    ensures board.proto.cur == old(board.proto).cur && board.proto.issued == old(board.proto).issued
  {
    WaitOut(board, request);
    var verdict := board.SettleVerdict(0, true);
    var fault := board.ReportsFault(0, true);
  }

  method WaitOut(board: Board, request: Request)
    requires board.Valid() && Only(board.proto, EnteringBody, request) && request.workload.Waits()
    modifies board
    ensures board.Valid() && Only(board.proto, Deciding, request) && board.proto.workers[0].ok
    ensures Commits(board.proto.log) == Commits(old(board.proto).log)
    ensures board.proto.now == old(board.proto).now + request.durationMs
    ensures board.proto.cur == old(board.proto).cur && board.proto.issued == old(board.proto).issued
  {
    board.StepElsewhere(EnterBody(0));
    board.StepElsewhere(Tick(request.durationMs));
    board.StepElsewhere(EndBody(0, true));
  }

  /** The release of the record, and the last event. */
  method Complete(board: Board, request: Request, nowMs: nat, text: string)
    requires board.Valid() && Only(board.proto, Finishing, request) && nowMs == board.proto.now
    requires board.proto.workers[0].verdict == Pass && CStrings.NulFree(text)
    modifies board, board.run, board.ring, board.ring.slots
    ensures board.Valid() && Only(board.proto, Tail, request)
    ensures board.proto.workers[0].ok == old(board.proto).workers[0].ok
    ensures board.proto.cur == Finish(old(board.proto).cur, Pass, nowMs) && board.proto.issued == old(board.proto).issued
    ensures VerdictOf(board.proto.log, 0) == VerdictOf(old(board.proto).log, 0)
    ensures |Commits(board.proto.log)| == |Commits(old(board.proto).log)| + 1
  {
    board.CompleteRun(0, Pass, nowMs);
    Emit(board, text);
  }

  /** The tail of a reboot run: the check, the marker, the restart. */
  method LeaveAndRestart(board: Board, request: Request)
    requires board.Valid() && Only(board.proto, Tail, request) && board.proto.workers[0].ok
    requires request.workload.ControlledReboot?
    modifies board
    ensures board.Valid() && board.proto.restarting
    ensures board.marker == Marker(true, old(board.proto).cur.runId)
    ensures LastMarked(board.proto.log) == Some(0) && VerdictOf(board.proto.log, 0) == VerdictOf(old(board.proto).log, 0)
    ensures board.proto.cur == old(board.proto).cur && board.proto.issued == old(board.proto).issued
    ensures Commits(board.proto.log) == Commits(old(board.proto).log)
  {
    var restart := board.ShouldRestart(0, request.workload, true);
    board.LeaveMarker(0, board.run.runId);
    board.StepElsewhere(Restart(0));
  }

  /** From boot until the body has waited its time out. */
  method RunUp(nonce: RunIdentity.U32, softwareReset: bool, rtc: Marker, request: Request, texts: seq<string>)
    returns (board: Board, id: string)
    requires Acceptable(request) && request.workload.Waits()
    requires |texts| == 4 && forall t :: t in texts ==> CStrings.NulFree(t)
    ensures fresh(board) && fresh(board.run) && fresh(board.ring) && fresh(board.ring.slots) && board.Valid()
    ensures Only(board.proto, EnteringBody, request) && board.proto.now == 0 == board.proto.cur.startedMs
    ensures id == board.proto.cur.runId == IssuedId(nonce, 0) && |Commits(board.proto.log)| == 4
  {
    board := BootUp(nonce, softwareReset, rtc, texts[..3]);
    id := Begin(board, request, 0);
    Emit(board, texts[3]);
  }

  /** From there to the restart. */
  method RunDown(board: Board, request: Request, nowMs: nat, texts: seq<string>)
    requires board.Valid() && Only(board.proto, EnteringBody, request) && request.workload.ControlledReboot?
    requires board.proto.now + request.durationMs == nowMs
    requires |texts| == 2 && forall t :: t in texts ==> CStrings.NulFree(t)
    modifies board, board.run, board.ring, board.ring.slots
    ensures board.Valid() && board.proto.restarting
    ensures board.marker == Marker(true, old(board.proto).cur.runId)
    ensures board.proto.cur == Finish(old(board.proto).cur, Pass, nowMs)
    ensures |Commits(board.proto.log)| == |Commits(old(board.proto).log)| + 2
  {
    WaitAndSettle(board, request);
    Emit(board, texts[0]);
    Complete(board, request, nowMs, texts[1]);
    LeaveAndRestart(board, request);
  }

  /** From boot to restart: the run passes, its marker is left, and the ring has seen the six events of
      a session with one undisturbed run. */
  method RebootOnce(nonce: RunIdentity.U32, softwareReset: bool, rtc: Marker, request: Request, texts: seq<string>)
    returns (board: Board, id: string)
    requires Acceptable(request) && request.workload.ControlledReboot?
    requires |texts| == 6 && forall t :: t in texts ==> CStrings.NulFree(t)
    ensures board.Valid() && board.proto.restarting
    ensures id == IssuedId(nonce, 0) && board.marker == Marker(true, id)
    ensures board.proto.cur.runId == id && board.proto.cur.state == RunState.Complete && board.proto.cur.verdict == Pass
    ensures board.proto.cur.endedMs == board.proto.cur.startedMs + request.durationMs
    ensures |board.ring.history| == 6
  {
    board, id := RunUp(nonce, softwareReset, rtc, request, texts[..4]);
    RunDown(board, request, request.durationMs, texts[4..]);
  }

  /** And the next boot reports that run, once: it finds the retained marker and clears it. */
  method RebootIsReported(nonce: RunIdentity.U32, nextNonce: RunIdentity.U32, rtc: Marker, request: Request, texts: seq<string>)
    returns (next: Board, id: string)
    requires Acceptable(request) && request.workload.ControlledReboot?
    requires |texts| == 6 && forall t :: t in texts ==> CStrings.NulFree(t)
    ensures next.Valid() && id == IssuedId(nonce, 0) && next.previous == Some(id) && !next.marker.valid
  {
    var board: Board;
    board, id := RebootOnce(nonce, false, rtc, request, texts);
    next := new Board(nextNonce, true, board.marker);
  }
}
