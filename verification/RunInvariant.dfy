/** What every step of the run protocol keeps. */
module RunInvariant {
  import opened Options
  import opened RunRecord
  import opened RunProtocol
  import RunIdentity

  /** How far a workload task has got. */
  function Rank(pc: Pc): nat {
    match pc
    case Spawned => 0
    case Numbering(PhaseStart) => 1
    case Committing(PhaseStart, _) => 2
    case EnteringBody => 3
    case InBody => 4
    case Deciding => 5
    case Rechecking => 6
    case Numbering(Fault) => 7
    case Committing(Fault, _) => 8
    case Numbering(PhaseEnd) => 9
    case Committing(PhaseEnd, _) => 10
    case Finishing => 11
    case Numbering(RunComplete) => 12
    case Committing(RunComplete, _) => 13
    case Tail => 14
    case Marking => 15
    case Restarting => 16
    case Gone => 17
    case _ => 18
  }

  const DECIDED := 6
  const RECHECKED := 7
  const ENDING := 10
  const FINISHED := 12
  const COMPLETING := 13

  predicate PhaseOpen(pc: Pc) {
    3 <= Rank(pc) <= 10
  }

  /** The events a run has emitted once its task is at the given rank. */
  function Script(id: string, verdict: Verdict, faulted: bool, rank: nat): seq<Label> {
    var start := [Label(PhaseStart, id, NoVerdict)];
    var body := if faulted then start + [Label(Fault, id, Fail)] else start;
    var ended := body + [Label(PhaseEnd, id, verdict)];
    if rank <= 2 then []
    else if rank <= 8 then start
    else if rank <= 10 then body
    else if rank <= 13 then ended
    else ended + [Label(RunComplete, id, verdict)]
  }

  /** Whether the run's second look at the abort flag led it to report a fault. */
  predicate Faulted(log: Log, n: nat, ok: bool) {
    !ok && HasRechecked(log, n) && !AbortBeforeRecheck(log, n)
  }

  // ---- The shared record and its one owner ------------------------------------------------

  predicate CoreInv(s: State) {
    && (s.issued == [] ==> s.cur == IdleRun() && !s.creating && s.workers.Keys == {})
    && (s.issued != [] ==> CurrentInv(s, s.Last()))
    && (s.cur.Active() ==> s.issued != [] && (s.creating || OwnedBy(s, s.Last())))
    && (s.creating ==> s.cur.Active() && s.Last() !in s.workers)
    && forall n <- s.workers :: n < |s.issued| && (OwnedBy(s, n) ==> n == s.Last() && s.cur.Active())
  }

  /** Run n's task exists and has not yet released the shared record. */
  predicate OwnedBy(s: State, n: nat) {
    n in s.workers && Rank(s.workers[n].pc) < FINISHED
  }

  /** The shared record describes the run admitted last. */
  predicate CurrentInv(s: State, last: nat)
    requires last < |s.issued|
  {
    && s.cur.runId == s.issued[last].runId
    && s.cur.request == s.issued[last].request
    && s.cur.state != Idling
    && s.cur.startedMs <= s.now
    && (s.cur.Active() ==> s.cur.verdict == InProgress && s.cur.endedMs == 0)
    && (s.cur.state == Complete ==> s.cur.startedMs <= s.cur.endedMs <= s.now)
    && (s.cur.state == Complete && last !in s.workers ==> s.cur.verdict == Fail)
    && s.cur.abortRequested == AbortSeen(s.log, last)
    && (s.cur.state == Running ==> !s.cur.abortRequested)
    && (s.cur.state == Aborting ==> s.cur.abortRequested)
  }

  ghost predicate IssuedInv(s: State) {
    && Admissions(s.log) == |s.issued|
    && forall n :: 0 <= n < |s.issued| ==> s.issued[n].runId == IssuedId(s.nonce, n)
  }

  // ---- Each run's own story ---------------------------------------------------------------

  /** No step of run n's task has been taken. */
  predicate Untouched(log: Log, n: nat) {
    && LabelsOf(log, n) == []
    && VerdictOf(log, n) == None
    && BodyResult(log, n) == None
    && !HasRechecked(log, n)
    && !AbortBeforeRecheck(log, n)
    && !AbortBeforeDecision(log, n)
  }

  predicate RunInv(s: State, n: nat) {
    && (n >= |s.issued| ==> !AbortSeen(s.log, n))
    && (if n in s.workers && n < |s.issued| then WorkerInv(s, n, s.workers[n]) else Untouched(s.log, n))
  }

  predicate WorkerInv(s: State, n: nat, w: Worker)
    requires n < |s.issued|
  {
    var r := Rank(w.pc);
    && r < 18
    && (r >= 1 ==> w.run.runId == s.issued[n].runId && w.run.request == s.issued[n].request)
    && LabelsOf(s.log, n) == Script(s.issued[n].runId, w.verdict, Faulted(s.log, n, w.ok), r)
    && BodyInv(s, n, w, r)
    && VerdictInv(s, n, w, r)
    && TailInv(s, n, w, r)
  }

  predicate BodyInv(s: State, n: nat, w: Worker, r: nat)
    requires n < |s.issued|
  {
    && (r >= 4 ==> w.enteredAt <= s.now)
    && BodyResult(s.log, n) == (if r >= 5 then Some(w.ok) else None)
    && (r >= 5 && w.ok && s.issued[n].request.workload.Waits() ==> RanFor(s.log, n, s.issued[n].request.durationMs))
  }

  predicate VerdictInv(s: State, n: nat, w: Worker, r: nat) {
    && VerdictOf(s.log, n) == (if r >= DECIDED then Some(w.verdict) else None)
    && (r < DECIDED ==> !AbortBeforeDecision(s.log, n))
    && (r >= DECIDED ==> w.verdict == Judge(AbortBeforeDecision(s.log, n), w.ok))
    && (r < RECHECKED ==> !HasRechecked(s.log, n) && !AbortBeforeRecheck(s.log, n))
    && (r >= RECHECKED ==> (HasRechecked(s.log, n) <==> !w.ok))
    && (7 <= r <= 8 ==> Faulted(s.log, n, w.ok))
    && (Faulted(s.log, n, w.ok) ==> w.verdict == Fail)
  }

  predicate TailInv(s: State, n: nat, w: Worker, r: nat)
    requires n < |s.issued|
  {
    && (r >= FINISHED && n == |s.issued| - 1 ==> s.cur.state == Complete && s.cur.verdict == w.verdict)
    && (15 <= r <= 16 ==>
          s.issued[n].request.workload.ControlledReboot? && w.ok && (NewerAtTail(s.log, n) || w.verdict == Pass))
  }

  // ---- The ring's order -------------------------------------------------------------------

  predicate PhaseInv(s: State) {
    && PhasesAlternate(s.log)
    && (OpenPhase(s.log).Some? ==>
          OpenPhase(s.log).value in s.workers && PhaseOpen(s.workers[OpenPhase(s.log).value].pc))
    && forall n <- s.workers :: PhaseOpen(s.workers[n].pc) ==> OpenPhase(s.log) == Some(n)
  }

  /** Each committed event's two numbers differ by the numbers taken by others in between. */
  predicate NumbersMatch(log: Log) {
    match log
    case Nil => true
    case Snoc(h, Committed(src, e)) =>
      && NumbersMatch(h)
      && e.slotSeq == Numbers(h)
      && e.seqNo + NumbersSince(h, src) == Numbers(h)
    case Snoc(h, _) => NumbersMatch(h)
  }

  predicate SeqInv(s: State) {
    && s.seqNo == Numbers(s.log)
    && NumbersMatch(s.log)
    && (s.boot.BootCommitting? ==> s.boot.seqNo + NumbersSince(s.log, BootTask) == s.seqNo)
    && forall n <- s.workers :: s.workers[n].pc.Committing? ==>
         s.workers[n].pc.seqNo + NumbersSince(s.log, WorkerTask(n)) == s.seqNo
  }

  predicate MarkerInv(s: State) {
    && (s.marker.valid ==> LastMarked(s.log).Some?)
    && (LastMarked(s.log).Some? ==>
          var n := LastMarked(s.log).value;
          n in s.workers && s.workers[n].pc == Restarting && n < |s.issued|
          && s.marker == Marker(true, s.issued[n].runId))
    && (s.restarting ==> LastMarked(s.log).Some?)
    && (forall n <- s.workers :: s.workers[n].pc == Restarting ==> LastMarked(s.log).Some?)
  }

  predicate BootKind(kind: Kind) {
    kind.BootEvent? || kind.ResetReason? || kind.Ready?
  }

  /** Every event carries the name of the run whose task emitted it; the boot task emits no run events. */
  predicate NamesMatch(log: Log, nonce: RunIdentity.U32) {
    match log
    case Nil => true
    case Snoc(h, Committed(BootTask, e)) => NamesMatch(h, nonce) && BootKind(e.body.kind)
    case Snoc(h, Committed(WorkerTask(n), e)) =>
      NamesMatch(h, nonce) && !BootKind(e.body.kind) && n < Admissions(h) && e.body.runId == IssuedId(nonce, n)
    case Snoc(h, _) => NamesMatch(h, nonce)
  }

  predicate NamesInv(s: State) {
    && NamesMatch(s.log, s.nonce)
    && (s.boot.BootNumbering? || s.boot.BootCommitting? ==> BootKind(s.boot.kind))
  }

  ghost predicate Inv(s: State) {
    && NamesInv(s)
    && CoreInv(s)
    && IssuedInv(s)
    && (forall n: nat :: RunInv(s, n))
    && PhaseInv(s)
    && SeqInv(s)
    && MarkerInv(s)
  }

  lemma {:induction false} BootInv(nonce: RunIdentity.U32, softwareReset: bool, rtc: Marker)
    ensures Inv(BootState(nonce, softwareReset, rtc))
  {
  }

  // ---- Every step keeps it ----------------------------------------------------------------

  predicate OfWorker(a: Action) {
    !a.Tick? && !a.BootStep? && !a.Admit? && !a.Spawn? && !a.SpawnFails? && !a.AbortRequest?
  }

  lemma {:induction false} TickOrBootKeepsCore(s: State, a: Action)
    requires CoreInv(s) && Enabled(s, a) && (a.Tick? || a.BootStep?)
    ensures CoreInv(Apply(s, a))
  {
  }

  lemma {:induction false} HandlerKeepsCore(s: State, a: Action)
    requires CoreInv(s) && Enabled(s, a) && !OfWorker(a) && !a.Tick? && !a.BootStep?
    requires !AbortSeen(s.log, |s.issued|)
    ensures CoreInv(Apply(s, a))
  {
  }

  /** What a step of run n's task leaves alone, and what it may add to the history. */
  ghost predicate OwnStep(s: State, t: State, n: nat) {
    && t.(cur := s.cur, seqNo := s.seqNo, marker := s.marker, restarting := s.restarting,
          workers := s.workers, log := s.log) == s
    && n in s.workers && n in t.workers
    && t.workers == s.workers[n := t.workers[n]]
    && (t.log == s.log || (exists e :: t.log == Snoc(s.log, e) && EntryOf(e, n)))
  }

  /** An entry that tells run n's story only. */
  predicate EntryOf(e: Entry, n: nat) {
    match e
    case Admitted(_) => false
    case NotSpawned(_) => false
    case AbortAccepted(_) => false
    case Numbered(src) => src == WorkerTask(n)
    case Committed(src, _) => src == WorkerTask(n)
    case _ => e.n == n
  }

  predicate OwnershipStep(s: State, t: State, n: nat)
    requires n in s.workers && n in t.workers
  {
    var r, r' := Rank(s.workers[n].pc), Rank(t.workers[n].pc);
    || (t.cur == s.cur && (r < FINISHED <==> r' < FINISHED))
    || (r < FINISHED <= r' && t.cur == Finish(s.cur, t.workers[n].verdict, s.now))
  }

  lemma {:induction false} WorkerStepShape(s: State, a: Action)
    requires Enabled(s, a) && OfWorker(a)
    ensures OwnStep(s, Apply(s, a), a.n)
    ensures OwnershipStep(s, Apply(s, a), a.n)
  {
    WorkerStepOwns(s, a);
    var t := Apply(s, a);
    assert t.workers == s.workers[a.n := t.workers[a.n]];
    assert t.log == s.log || t.log == Snoc(s.log, t.log.last);
  }

  lemma {:induction false} WorkerStepOwns(s: State, a: Action)
    requires Enabled(s, a) && OfWorker(a)
    ensures a.n in s.workers && a.n in Apply(s, a).workers && OwnershipStep(s, Apply(s, a), a.n)
  {
  }

  lemma {:induction false} OwnStepKeepsCore(s: State, t: State, n: nat)
    requires CoreInv(s) && OwnStep(s, t, n) && OwnershipStep(s, t, n)
    ensures CoreInv(t)
  {
    assert forall m <- t.workers :: m in s.workers;
    assert forall m <- t.workers :: m != n ==> t.workers[m] == s.workers[m];
  }

  lemma {:induction false} OwnStepKeepsOthers(s: State, t: State, n: nat, m: nat)
    requires CoreInv(s) && OwnStep(s, t, n) && OwnershipStep(s, t, n)
    requires m != n && RunInv(s, m)
    ensures RunInv(t, m)
  {
  }

  lemma {:induction false} TickKeepsRun(s: State, a: Action, n: nat)
    requires Enabled(s, a) && a.Tick?
    requires RunInv(s, n)
    ensures RunInv(Apply(s, a), n)
  {
  }

  lemma {:induction false} BootStepKeepsRun(s: State, a: Action, n: nat)
    requires Enabled(s, a) && a.BootStep?
    requires RunInv(s, n)
    ensures RunInv(Apply(s, a), n)
  {
    var t := Apply(s, a);
    assert t.log == s.log || t.log == Snoc(s.log, t.log.last);
    assert t.(boot := s.boot, seqNo := s.seqNo, log := s.log) == s;
  }

  lemma {:induction false} AdmitKeepsRun(s: State, a: Action, n: nat)
    requires CoreInv(s) && Enabled(s, a) && a.Admit?
    requires RunInv(s, n)
    ensures RunInv(Apply(s, a), n)
  {
  }

  lemma {:induction false} SpawnKeepsRun(s: State, a: Action, n: nat)
    requires CoreInv(s) && Enabled(s, a) && (a.Spawn? || a.SpawnFails?)
    requires RunInv(s, n)
    ensures RunInv(Apply(s, a), n)
  {
  }

  lemma {:induction false} AbortKeepsRun(s: State, a: Action, n: nat)
    requires CoreInv(s) && Enabled(s, a) && a.AbortRequest?
    requires RunInv(s, n)
    ensures RunInv(Apply(s, a), n)
  {
  }

  lemma {:induction false} DecisionSawAbort(log: Log, n: nat)
    ensures AbortBeforeDecision(log, n) ==> AbortSeen(log, n)
  {
    if log.Snoc? { DecisionSawAbort(log.prev, n); }
  }

  ghost predicate OwnReady(s: State, a: Action) {
    CoreInv(s) && Enabled(s, a) && OfWorker(a) && RunInv(s, a.n)
  }

  lemma {:induction false} EarlyStepKeepsRun(s: State, a: Action)
    requires OwnReady(s, a) && (a.Copy? || a.TakeNumber? || a.EnterBody?)
    ensures RunInv(Apply(s, a), a.n)
  {
  }

  lemma {:induction false} EarlyCommitKeepsRun(s: State, a: Action)
    requires OwnReady(s, a) && a.CommitEvent? && Rank(s.workers[a.n].pc) < DECIDED
    ensures RunInv(Apply(s, a), a.n)
  {
    CommitAdds(s, a);
  }

  lemma {:induction false} FaultCommitKeepsRun(s: State, a: Action)
    requires OwnReady(s, a) && a.CommitEvent? && DECIDED <= Rank(s.workers[a.n].pc) <= RECHECKED + 1
    ensures RunInv(Apply(s, a), a.n)
  {
    CommitAdds(s, a);
  }

  lemma {:induction false} LateCommitKeepsRun(s: State, a: Action)
    requires OwnReady(s, a) && a.CommitEvent? && Rank(s.workers[a.n].pc) > RECHECKED + 1
    ensures RunInv(Apply(s, a), a.n)
  {
    CommitAdds(s, a);
  }

  lemma {:induction false} CommitAdds(s: State, a: Action)
    requires Enabled(s, a) && a.CommitEvent?
    ensures var w, t := s.workers[a.n], Apply(s, a);
            && t.cur == s.cur && t.issued == s.issued && t.now == s.now
            && t.workers == s.workers[a.n := w.(pc := AfterCommit(w.pc.kind))]
            && t.log.Snoc? && t.log.prev == s.log && t.log.last.Committed?
            && LabelsOf(t.log, a.n) == LabelsOf(s.log, a.n) + [Label(w.pc.kind, w.run.runId, EventVerdict(w, w.pc.kind))]
  {
  }

  lemma {:induction false} CommitKeepsRun(s: State, a: Action)
    requires OwnReady(s, a) && a.CommitEvent?
    ensures RunInv(Apply(s, a), a.n)
  {
    var r := Rank(s.workers[a.n].pc);
    if r < DECIDED { EarlyCommitKeepsRun(s, a); }
    else if r <= RECHECKED + 1 { FaultCommitKeepsRun(s, a); }
    else { LateCommitKeepsRun(s, a); }
  }

  lemma {:induction false} EndBodyKeepsRun(s: State, a: Action)
    requires OwnReady(s, a) && a.EndBody?
    ensures RunInv(Apply(s, a), a.n)
  {
  }

  lemma {:induction false} DecideKeepsRun(s: State, a: Action)
    requires OwnReady(s, a) && a.Decide?
    ensures RunInv(Apply(s, a), a.n)
  {
  }

  lemma {:induction false} RecheckKeepsRun(s: State, a: Action)
    requires OwnReady(s, a) && a.Recheck?
    ensures RunInv(Apply(s, a), a.n)
  {
    DecisionSawAbort(s.log, a.n);
  }

  lemma {:induction false} FinishKeepsRun(s: State, a: Action)
    requires OwnReady(s, a) && a.FinishRun?
    ensures RunInv(Apply(s, a), a.n)
  {
  }

  lemma {:induction false} TailKeepsRun(s: State, a: Action)
    requires OwnReady(s, a) && IssuedInv(s) && a.CheckTail?
    ensures RunInv(Apply(s, a), a.n)
  {
    DecisionSawAbort(s.log, a.n);
  }

  lemma {:induction false} MarkKeepsRun(s: State, a: Action)
    requires OwnReady(s, a) && a.WriteMarker?
    ensures RunInv(Apply(s, a), a.n)
  {
  }

  lemma {:induction false} RestartKeepsRun(s: State, a: Action)
    requires OwnReady(s, a) && a.Restart?
    ensures RunInv(Apply(s, a), a.n)
  {
  }

  lemma {:induction false} OwnStepKeepsRun(s: State, a: Action)
    requires OwnReady(s, a) && IssuedInv(s)
    ensures RunInv(Apply(s, a), a.n)
  {
    if a.Copy? || a.TakeNumber? || a.EnterBody? { EarlyStepKeepsRun(s, a); }
    else if a.CommitEvent? { CommitKeepsRun(s, a); }
    else if a.EndBody? { EndBodyKeepsRun(s, a); }
    else if a.Decide? { DecideKeepsRun(s, a); }
    else if a.Recheck? { RecheckKeepsRun(s, a); }
    else if a.FinishRun? { FinishKeepsRun(s, a); }
    else if a.CheckTail? { TailKeepsRun(s, a); }
    else if a.WriteMarker? { MarkKeepsRun(s, a); }
    else { RestartKeepsRun(s, a); }
  }

  lemma {:induction false} WorkerStepKeepsRun(s: State, a: Action, n: nat)
    requires CoreInv(s) && IssuedInv(s) && Enabled(s, a) && OfWorker(a)
    requires RunInv(s, n) && RunInv(s, a.n)
    ensures RunInv(Apply(s, a), n)
  {
    if a.n == n {
      OwnStepKeepsRun(s, a);
    } else {
      WorkerStepShape(s, a);
      OwnStepKeepsOthers(s, Apply(s, a), a.n, n);
    }
  }

  lemma {:induction false} OtherStepKeepsRun(s: State, a: Action, n: nat)
    requires CoreInv(s) && Enabled(s, a) && !OfWorker(a) && RunInv(s, n)
    ensures RunInv(Apply(s, a), n)
  {
    if a.Tick? { TickKeepsRun(s, a, n); }
    else if a.BootStep? { BootStepKeepsRun(s, a, n); }
    else if a.Admit? { AdmitKeepsRun(s, a, n); }
    else if a.AbortRequest? { AbortKeepsRun(s, a, n); }
    else { SpawnKeepsRun(s, a, n); }
  }

  // ---- The order of the ring, the numbers and the marker ----------------------------------

  ghost predicate OrderInv(s: State) {
    PhaseInv(s) && SeqInv(s) && MarkerInv(s) && IssuedInv(s)
  }

  lemma {:induction false} BootStepKeepsOrder(s: State, a: Action)
    requires OrderInv(s) && Enabled(s, a) && (a.Tick? || a.BootStep?)
    ensures OrderInv(Apply(s, a))
  {
    var t := Apply(s, a);
    assert t.log == s.log || t.log == Snoc(s.log, t.log.last);
    assert t.(boot := s.boot, seqNo := s.seqNo, log := s.log, now := s.now) == s;
  }

  lemma {:induction false} SpawnKeepsOrder(s: State, a: Action)
    requires CoreInv(s) && OrderInv(s) && Enabled(s, a) && (a.Spawn? || a.SpawnFails?)
    ensures OrderInv(Apply(s, a))
  {
  }

  /** An admission or an abort request adds at most an entry that is not about the ring. */
  lemma {:induction false} HandlerStepShape(s: State, a: Action)
    requires Enabled(s, a) && (a.Admit? || a.AbortRequest?)
    ensures var t := Apply(s, a);
            && t.workers == s.workers && t.marker == s.marker && t.boot == s.boot && t.seqNo == s.seqNo
            && t.nonce == s.nonce && t.restarting == s.restarting
            && (a.Admit? ==> t.log == Snoc(s.log, Admitted(|s.issued|))
                             && t.issued == s.issued + [Issued(IssuedId(s.nonce, |s.issued|), a.request)])
            && (a.AbortRequest? ==> t.issued == s.issued
                                    && (t.log == s.log || t.log == Snoc(s.log, AbortAccepted(s.Last()))))
  {
  }

  lemma {:induction false} HandlerStepKeepsOrder(s: State, a: Action)
    requires OrderInv(s) && Enabled(s, a) && (a.Admit? || a.AbortRequest?)
    ensures OrderInv(Apply(s, a))
  {
    HandlerStepShape(s, a);
  }

  /** A step that puts no event in the ring leaves the phase order alone. */
  lemma {:induction false} QuietStepKeepsPhase(s: State, t: State, n: nat)
    requires OwnStep(s, t, n) && PhaseInv(s)
    requires t.log == s.log || (t.log.Snoc? && t.log.prev == s.log && !t.log.last.Committed?)
    requires PhaseOpen(t.workers[n].pc) == PhaseOpen(s.workers[n].pc)
    ensures PhaseInv(t)
  {
    assert forall m <- t.workers :: m in s.workers && (m != n ==> t.workers[m] == s.workers[m]);
  }

  /** An event that opens or closes run n's phase does so in turn: only the owner of the shared record
      has an open phase. */
  lemma {:induction false} LoudStepKeepsPhase(s: State, t: State, n: nat, e: Event)
    requires CoreInv(s) && OwnStep(s, t, n) && PhaseInv(s)
    requires t.log == Snoc(s.log, Committed(WorkerTask(n), e))
    requires PhaseOpen(t.workers[n].pc) <==> e.body.kind == PhaseStart || (e.body.kind != PhaseEnd && PhaseOpen(s.workers[n].pc))
    requires e.body.kind == PhaseStart ==> OwnedBy(s, n) && !PhaseOpen(s.workers[n].pc)
    requires e.body.kind == PhaseEnd ==> PhaseOpen(s.workers[n].pc)
    ensures PhaseInv(t)
  {
    assert forall m <- t.workers :: m in s.workers && (m != n ==> t.workers[m] == s.workers[m]);
    assert forall m <- s.workers :: PhaseOpen(s.workers[m].pc) ==> OwnedBy(s, m);
  }

  lemma {:induction false} CommitKeepsPhase(s: State, a: Action)
    requires OwnReady(s, a) && PhaseInv(s) && a.CommitEvent?
    ensures PhaseInv(Apply(s, a))
  {
    WorkerStepShape(s, a);
    LoudStepKeepsPhase(s, Apply(s, a), a.n, Apply(s, a).log.last.event);
  }

  /** Only a commit opens or closes a phase. */
  lemma {:induction false} OtherwiseQuiet(s: State, a: Action)
    requires Enabled(s, a) && OfWorker(a) && !a.CommitEvent?
    ensures var t := Apply(s, a);
            && (t.log == s.log || (t.log.Snoc? && t.log.prev == s.log && !t.log.last.Committed?))
            && a.n in t.workers && PhaseOpen(t.workers[a.n].pc) == PhaseOpen(s.workers[a.n].pc)
  {
  }

  lemma {:induction false} WorkerStepKeepsPhase(s: State, a: Action)
    requires OwnReady(s, a) && PhaseInv(s)
    ensures PhaseInv(Apply(s, a))
  {
    if a.CommitEvent? {
      CommitKeepsPhase(s, a);
    } else {
      WorkerStepShape(s, a);
      OtherwiseQuiet(s, a);
      QuietStepKeepsPhase(s, Apply(s, a), a.n);
    }
  }

  lemma {:induction false} NumberKeepsSeq(s: State, a: Action)
    requires Enabled(s, a) && a.TakeNumber? && SeqInv(s)
    ensures SeqInv(Apply(s, a))
  {
  }

  lemma {:induction false} CommitKeepsSeq(s: State, a: Action)
    requires Enabled(s, a) && a.CommitEvent? && SeqInv(s)
    ensures SeqInv(Apply(s, a))
  {
  }

  /** Other steps of a task neither take nor commit a number. */
  lemma {:induction false} OtherwiseSilent(s: State, a: Action)
    requires Enabled(s, a) && OfWorker(a) && !a.TakeNumber? && !a.CommitEvent?
    ensures var t := Apply(s, a);
            && t.seqNo == s.seqNo && t.boot == s.boot
            && (t.log == s.log || (t.log.Snoc? && t.log.prev == s.log && !t.log.last.Committed? && !t.log.last.Numbered?))
            && a.n in t.workers && t.workers == s.workers[a.n := t.workers[a.n]] && !t.workers[a.n].pc.Committing?
  {
  }

  lemma {:induction false} WorkerStepKeepsSeq(s: State, a: Action)
    requires Enabled(s, a) && OfWorker(a) && SeqInv(s)
    ensures SeqInv(Apply(s, a))
  {
    if a.TakeNumber? { NumberKeepsSeq(s, a); }
    else if a.CommitEvent? { CommitKeepsSeq(s, a); }
    else { OtherwiseSilent(s, a); }
  }

  /** A step that does not write the marker leaves it, and the count of admissions, alone. */
  lemma {:induction false} QuietStepKeepsMarker(s: State, t: State, n: nat)
    requires OwnStep(s, t, n) && MarkerInv(s) && IssuedInv(s)
    requires t.marker == s.marker && (t.restarting ==> s.restarting || s.workers[n].pc == Restarting)
    requires t.log == s.log || (t.log.Snoc? && t.log.prev == s.log && !t.log.last.Marked? && !t.log.last.Admitted?)
    requires t.workers[n].pc == Restarting <==> s.workers[n].pc == Restarting
    ensures MarkerInv(t) && IssuedInv(t)
  {
    assert forall m <- t.workers :: m in s.workers && (m != n ==> t.workers[m] == s.workers[m]);
    assert LastMarked(t.log) == LastMarked(s.log);
  }

  lemma {:induction false} MarkKeepsMarker(s: State, a: Action)
    requires OwnReady(s, a) && MarkerInv(s) && IssuedInv(s) && a.WriteMarker?
    ensures MarkerInv(Apply(s, a)) && IssuedInv(Apply(s, a))
  {
    var t := Apply(s, a);
    assert t.log == Snoc(s.log, Marked(a.n)) && t.workers[a.n].pc == Restarting;
    assert a.n < |s.issued| && s.workers[a.n].run.runId == s.issued[a.n].runId;
  }

  lemma {:induction false} WorkerStepKeepsMarker(s: State, a: Action)
    requires OwnReady(s, a) && MarkerInv(s) && IssuedInv(s)
    ensures MarkerInv(Apply(s, a)) && IssuedInv(Apply(s, a))
  {
    if a.WriteMarker? {
      MarkKeepsMarker(s, a);
    } else {
      WorkerStepShape(s, a);
      QuietStepKeepsMarker(s, Apply(s, a), a.n);
    }
  }

  lemma {:induction false} OtherStepKeepsOrder(s: State, a: Action)
    requires CoreInv(s) && OrderInv(s) && Enabled(s, a) && !OfWorker(a)
    ensures OrderInv(Apply(s, a))
  {
    if a.Tick? || a.BootStep? { BootStepKeepsOrder(s, a); }
    else if a.Spawn? || a.SpawnFails? { SpawnKeepsOrder(s, a); }
    else { HandlerStepKeepsOrder(s, a); }
  }

  lemma {:induction false} OtherStepKeepsNames(s: State, a: Action)
    requires NamesInv(s) && Enabled(s, a) && !OfWorker(a)
    ensures NamesInv(Apply(s, a))
  {
  }

  lemma {:induction false} CommitKeepsNames(s: State, a: Action)
    requires OwnReady(s, a) && NamesInv(s) && IssuedInv(s) && a.CommitEvent?
    ensures NamesInv(Apply(s, a))
  {
    CommitAdds(s, a);
    assert s.workers[a.n].run.runId == s.issued[a.n].runId == IssuedId(s.nonce, a.n);
  }

  lemma {:induction false} WorkerStepKeepsNames(s: State, a: Action)
    requires OwnReady(s, a) && NamesInv(s) && IssuedInv(s)
    ensures NamesInv(Apply(s, a))
  {
    if a.CommitEvent? {
      CommitKeepsNames(s, a);
    } else {
      OtherwiseQuiet(s, a);
      WorkerStepShape(s, a);
    }
  }

  lemma {:induction false} StepKeepsInv(s: State, a: Action)
    requires Inv(s) && Enabled(s, a)
    ensures Inv(Apply(s, a))
  {
    assert OfWorker(a) ==> RunInv(s, a.n);
    forall n: nat ensures RunInv(Apply(s, a), n) {
      assert RunInv(s, n);
      if OfWorker(a) { WorkerStepKeepsRun(s, a, n); } else { OtherStepKeepsRun(s, a, n); }
    }
    if OfWorker(a) {
      WorkerStepShape(s, a);
      OwnStepKeepsCore(s, Apply(s, a), a.n);
      WorkerStepKeepsPhase(s, a);
      WorkerStepKeepsSeq(s, a);
      WorkerStepKeepsMarker(s, a);
      WorkerStepKeepsNames(s, a);
    } else {
      assert RunInv(s, |s.issued|);
      if a.Tick? || a.BootStep? { TickOrBootKeepsCore(s, a); } else { HandlerKeepsCore(s, a); }
      OtherStepKeepsOrder(s, a);
      OtherStepKeepsNames(s, a);
    }
  }

  lemma {:induction false} RunsKeepInv(s: State, actions: seq<Action>, t: State)
    requires Inv(s) && Runs(s, actions, t)
    ensures Inv(t)
    decreases |actions|
  {
    if actions != [] {
      StepKeepsInv(s, actions[0]);
      RunsKeepInv(Apply(s, actions[0]), actions[1..], t);
    }
  }
}
