/** What the run protocol promises, over every interleaving of admissions, aborts and workers. */
module RunTheorems {
  import opened Options
  import opened RunRecord
  import opened RunProtocol
  import opened RunInvariant
  import RunIdentity

  ghost predicate Reachable(s: State) {
    exists softwareReset, rtc, actions :: Runs(BootState(s.nonce, softwareReset, rtc), actions, s)
  }

  lemma ReachableInv(s: State)
    requires Reachable(s)
    ensures Inv(s)
  {
    var softwareReset, rtc, actions :| Runs(BootState(s.nonce, softwareReset, rtc), actions, s);
    BootInv(s.nonce, softwareReset, rtc);
    RunsKeepInv(BootState(s.nonce, softwareReset, rtc), actions, s);
  }

  // ---- Each run's events ------------------------------------------------------------------

  /** The run events in the ring that carry the given run id, oldest first. */
  function LabelsNamed(log: Log, runId: string): seq<Label> {
    match log
    case Nil => []
    case Snoc(h, Committed(_, e)) =>
      if !BootKind(e.body.kind) && e.body.runId == runId then LabelsNamed(h, runId) + [e.body]
      else LabelsNamed(h, runId)
    case Snoc(h, _) => LabelsNamed(h, runId)
  }

  /** A whole lifecycle: start, perhaps a fault, end, completion, the last two with one verdict. */
  function Lifecycle(runId: string, verdict: Verdict, faulted: bool): seq<Label> {
    [Label(PhaseStart, runId, NoVerdict)]
    + (if faulted then [Label(Fault, runId, Fail)] else [])
    + [Label(PhaseEnd, runId, verdict), Label(RunComplete, runId, verdict)]
  }

  /** Two admissions share an identifier exactly when a whole turn of the counter lies between them. */
  lemma {:induction false} SameIssuedIdExactly(nonce: RunIdentity.U32, m: nat, n: nat)
    ensures IssuedId(nonce, m) == IssuedId(nonce, n) <==>
              (m + 1) % RunIdentity.COUNTER_RANGE == (n + 1) % RunIdentity.COUNTER_RANGE
    ensures m < RunIdentity.COUNTER_RANGE && n < RunIdentity.COUNTER_RANGE && m != n ==>
              IssuedId(nonce, m) != IssuedId(nonce, n)
  {
    RunIdentity.RunIdFitsAndIdentifies(nonce, (m + 1) % RunIdentity.COUNTER_RANGE,
                                       nonce, (n + 1) % RunIdentity.COUNTER_RANGE);
    CounterWithinRange(m);
    CounterWithinRange(n);
  }

  lemma CounterWithinRange(n: nat)
    ensures n + 1 < RunIdentity.COUNTER_RANGE ==> (n + 1) % RunIdentity.COUNTER_RANGE == n + 1
    ensures n + 1 == RunIdentity.COUNTER_RANGE ==> (n + 1) % RunIdentity.COUNTER_RANGE == 0
  {
  }

  lemma {:induction false} NamedEventsAreOwn(log: Log, nonce: RunIdentity.U32, n: nat)
    requires NamesMatch(log, nonce) && n < RunIdentity.COUNTER_RANGE
    requires Admissions(log) <= RunIdentity.COUNTER_RANGE
    ensures LabelsNamed(log, IssuedId(nonce, n)) == LabelsOf(log, n)
  {
    if log.Snoc? {
      NamedEventsAreOwn(log.prev, nonce, n);
      if log.last.Committed? && log.last.source.WorkerTask? {
        SameIssuedIdExactly(nonce, log.last.source.n, n);
      }
    }
  }

  /** Run n's second look at the abort flag led it to report a fault. */
  predicate ReportsFault(log: Log, n: nat) {
    HasRechecked(log, n) && !AbortBeforeRecheck(log, n)
  }

  /** With fewer than 2^32 runs in a boot session, the events that carry a run's identifier are always
      a beginning of one lifecycle. Until the verdict is settled only the start can be there; from then
      on the lifecycle is that of the settled verdict, and with a fault only if that is "fail". */
  lemma RunEventsFollowLifecycle(s: State, n: nat)
    requires Reachable(s) && n < |s.issued| < RunIdentity.COUNTER_RANGE
    ensures VerdictOf(s.log, n).None? ==>
              LabelsNamed(s.log, IssuedId(s.nonce, n)) <= [Label(PhaseStart, IssuedId(s.nonce, n), NoVerdict)]
    ensures VerdictOf(s.log, n).Some? ==>
              && LabelsNamed(s.log, IssuedId(s.nonce, n))
                 <= Lifecycle(IssuedId(s.nonce, n), VerdictOf(s.log, n).value, ReportsFault(s.log, n))
              && (ReportsFault(s.log, n) ==> VerdictOf(s.log, n).value == Fail)
  {
    ReachableInv(s);
    NamedEventsAreOwn(s.log, s.nonce, n);
    assert RunInv(s, n);
    if n in s.workers {
      ScriptIsLifecycle(IssuedId(s.nonce, n), s.workers[n].verdict, Faulted(s.log, n, s.workers[n].ok),
                        Rank(s.workers[n].pc));
    }
  }

  /** And once the run is complete they are the whole of it. */
  lemma CompleteRunHasWholeLifecycle(s: State, n: nat)
    requires Reachable(s) && n < |s.issued| < RunIdentity.COUNTER_RANGE
    requires n in s.workers && Rank(s.workers[n].pc) > COMPLETING
    ensures VerdictOf(s.log, n).Some?
    ensures LabelsNamed(s.log, IssuedId(s.nonce, n))
            == Lifecycle(IssuedId(s.nonce, n), VerdictOf(s.log, n).value, ReportsFault(s.log, n))
  {
    ReachableInv(s);
    NamedEventsAreOwn(s.log, s.nonce, n);
    assert RunInv(s, n);
    ScriptIsLifecycle(IssuedId(s.nonce, n), s.workers[n].verdict, Faulted(s.log, n, s.workers[n].ok),
                      Rank(s.workers[n].pc));
  }

  lemma ScriptIsLifecycle(id: string, verdict: Verdict, faulted: bool, rank: nat)
    ensures Script(id, verdict, faulted, rank) <= Lifecycle(id, verdict, faulted)
    ensures rank > COMPLETING ==> Script(id, verdict, faulted, rank) == Lifecycle(id, verdict, faulted)
    ensures rank < DECIDED ==> Script(id, verdict, faulted, rank) <= [Label(PhaseStart, id, NoVerdict)]
  {
  }

  /** Phases never overlap, although the completion of one run may follow the start of the next. */
  lemma PhasesNeverOverlap(s: State)
    requires Reachable(s)
    ensures PhasesAlternate(s.log)
  {
    ReachableInv(s);
  }

  // ---- One owner of the shared record -----------------------------------------------------

  lemma SingleOwner(s: State)
    requires Reachable(s)
    ensures s.cur.Active() <==> s.creating || exists n :: OwnedBy(s, n)
    ensures forall m, n :: OwnedBy(s, m) && OwnedBy(s, n) ==> m == n
    ensures s.creating ==> forall n :: !OwnedBy(s, n)
    ensures forall n :: OwnedBy(s, n) && s.workers[n].pc != Spawned ==>
              s.workers[n].run.runId == s.cur.runId && s.workers[n].run.request == s.cur.request
    ensures s.cur.state == Complete ==> s.cur.startedMs <= s.cur.endedMs
  {
    ReachableInv(s);
    forall n | OwnedBy(s, n) && s.workers[n].pc != Spawned
      ensures s.workers[n].run.runId == s.cur.runId && s.workers[n].run.request == s.cur.request
    {
      assert RunInv(s, n);
    }
  }

  /** An admission leaves nothing of the run before it in the record. */
  lemma AdmissionStartsAfresh(s: State, r: Request)
    requires Reachable(s) && Enabled(s, Admit(r))
    ensures var cur := Apply(s, Admit(r)).cur;
            && cur.runId == IssuedId(s.nonce, |s.issued|) && cur.request == r
            && cur.state == Running && !cur.abortRequested && cur.verdict == InProgress
            && cur.startedMs == s.now && cur.endedMs == 0
    ensures !OwnedBy(Apply(s, Admit(r)), |s.issued|)
  {
    ReachableInv(s);
    assert RunInv(s, |s.issued|);
  }

  /** What the record tells of the newest run, from its admission on: in progress until its own finish,
      aborting exactly from an accepted abort on, and then its settled verdict; failed if it never got
      a task. */
  lemma RecordTellsNewestRun(s: State)
    requires Reachable(s) && s.issued != []
    ensures s.cur.runId == IssuedId(s.nonce, s.Last()) && s.cur.request == s.issued[s.Last()].request
    ensures s.creating || OwnedBy(s, s.Last()) ==>
              && s.cur.verdict == InProgress
              && s.cur.state == if AbortSeen(s.log, s.Last()) then Aborting else Running
    ensures !s.creating && s.Last() in s.workers && !OwnedBy(s, s.Last()) ==>
              s.cur.state == Complete && Some(s.cur.verdict) == VerdictOf(s.log, s.Last())
    ensures !s.creating && s.Last() !in s.workers ==> s.cur.state == Complete && s.cur.verdict == Fail
    ensures s.cur.abortRequested == AbortSeen(s.log, s.Last())
  {
    ReachableInv(s);
    assert RunInv(s, s.Last());
  }

  /** No finish ever lands on another run: it finds the record active and holding its own run. */
  lemma FinishHitsOwnRun(s: State, n: nat)
    requires Reachable(s) && Enabled(s, FinishRun(n))
    ensures s.cur.Active() && s.cur.runId == s.workers[n].run.runId && s.cur.request == s.workers[n].run.request
    ensures var t := Apply(s, FinishRun(n));
            && t.cur.state == Complete && t.cur.runId == s.cur.runId && t.cur.request == s.cur.request
            && Some(t.cur.verdict) == VerdictOf(s.log, n)
            && t.cur.startedMs == s.cur.startedMs && t.cur.endedMs == s.now
            && t.cur.abortRequested == s.cur.abortRequested
    ensures forall m :: !OwnedBy(Apply(s, FinishRun(n)), m)
  {
    SingleOwner(s);
    ReachableInv(s);
    assert RunInv(s, n);
    assert OwnedBy(s, n);
    StepKeepsInv(s, FinishRun(n));
  }

  /** The handler's own finish, when the workload task could not be created, closes the run it just admitted. */
  lemma FailedSpawnClosesOwnRun(s: State)
    requires Reachable(s) && Enabled(s, SpawnFails)
    ensures s.cur.Active() && s.cur.runId == IssuedId(s.nonce, s.Last())
    ensures var t := Apply(s, SpawnFails); t.cur.verdict == Fail && !t.cur.Active() && LabelsOf(t.log, s.Last()) == []
  {
    ReachableInv(s);
    assert RunInv(s, s.Last());
  }

  /** ... and no event of that run is ever put in the ring, whatever happens later. */
  lemma FailedSpawnStaysSilent(s: State, actions: seq<Action>, t: State)
    requires Reachable(s) && Enabled(s, SpawnFails) && Runs(Apply(s, SpawnFails), actions, t)
    ensures LabelsOf(t.log, s.Last()) == [] && VerdictOf(t.log, s.Last()) == None
  {
    ReachableInv(s);
    ReachableStep(s, SpawnFails);
    NeverSpawnedStays(Apply(s, SpawnFails), actions, t, s.Last());
    ReachableRuns(Apply(s, SpawnFails), actions, t);
    ReachableInv(t);
    assert RunInv(t, s.Last());
  }

  /** Run n has been admitted, has no task, and will get none. */
  predicate NeverSpawned(s: State, n: nat) {
    n < |s.issued| && n !in s.workers && (s.creating ==> n != s.Last())
  }

  lemma {:induction false} NeverSpawnedStays(s: State, actions: seq<Action>, t: State, n: nat)
    requires Runs(s, actions, t) && NeverSpawned(s, n)
    ensures NeverSpawned(t, n)
    decreases |actions|
  {
    if actions != [] {
      NeverSpawnedStep(s, actions[0], n);
      NeverSpawnedStays(Apply(s, actions[0]), actions[1..], t, n);
    }
  }

  lemma {:induction false} NeverSpawnedStep(s: State, a: Action, n: nat)
    requires Enabled(s, a) && NeverSpawned(s, n)
    ensures NeverSpawned(Apply(s, a), n)
  {
  }

  // ---- Aborts and verdicts ----------------------------------------------------------------

  /** An accepted abort names the active run, and no other run of the session. */
  lemma AbortHitsNamedRun(s: State, runId: string)
    requires Reachable(s) && Enabled(s, AbortRequest(runId)) && |s.issued| < RunIdentity.COUNTER_RANGE
    requires Apply(s, AbortRequest(runId)) != s
    ensures s.cur.state == Running && runId == s.issued[s.Last()].runId
    ensures forall n :: 0 <= n < |s.issued| && s.issued[n].runId == runId ==> n == s.Last()
    ensures AbortSeen(Apply(s, AbortRequest(runId)).log, s.Last())
  {
    ReachableInv(s);
    forall n | 0 <= n < |s.issued| && s.issued[n].runId == runId
      ensures n == s.Last()
    {
      SameIssuedIdExactly(s.nonce, n, s.Last());
    }
  }

  /** The verdict is "aborted" exactly when an abort of that run was accepted before the worker read the
      flag for it, and otherwise says what the body returned. */
  lemma VerdictAgreesWithAborts(s: State, n: nat)
    requires Reachable(s) && VerdictOf(s.log, n).Some?
    ensures VerdictOf(s.log, n).value == Aborted <==> AbortBeforeDecision(s.log, n)
    ensures VerdictOf(s.log, n).value == Pass <==> !AbortBeforeDecision(s.log, n) && BodyResult(s.log, n) == Some(true)
    ensures VerdictOf(s.log, n).value == Fail <==> !AbortBeforeDecision(s.log, n) && BodyResult(s.log, n) == Some(false)
  {
    ReachableInv(s);
    assert RunInv(s, n);
  }

  /** Once settled, a verdict stays, whatever is accepted later. */
  lemma VerdictIsFinal(s: State, a: Action, n: nat)
    requires Reachable(s) && Enabled(s, a) && VerdictOf(s.log, n).Some?
    ensures VerdictOf(Apply(s, a).log, n) == VerdictOf(s.log, n)
  {
    assert a != Decide(n) by {
      ReachableInv(s);
      assert RunInv(s, n);
    }
    OnlyDecideSettles(s, a, n);
  }

  lemma {:induction false} OnlyDecideSettles(s: State, a: Action, n: nat)
    requires Enabled(s, a) && a != Decide(n)
    ensures VerdictOf(Apply(s, a).log, n) == VerdictOf(s.log, n)
  {
    var t := Apply(s, a);
    assert t.log == s.log || t.log == Snoc(s.log, t.log.last);
  }

  /** The abort flag is never lowered while a run is in the record; only an admission clears it. */
  lemma AbortFlagIsMonotone(s: State, a: Action)
    requires Reachable(s) && Enabled(s, a) && s.cur.abortRequested
    ensures Apply(s, a).cur.abortRequested || a.Admit?
    ensures !a.Admit? ==> Apply(s, a).cur.runId == s.cur.runId
  {
    ReachableInv(s);
    if OfWorker(a) { assert RunInv(s, a.n); }
  }

  /** The events that end a run's phase and the run itself carry the settled verdict. */
  lemma EndEventsCarryVerdict(s: State, n: nat, l: Label)
    requires Reachable(s) && l in LabelsOf(s.log, n) && (l.kind == PhaseEnd || l.kind == RunComplete)
    ensures VerdictOf(s.log, n) == Some(l.verdict)
  {
    ReachableInv(s);
    assert RunInv(s, n);
  }

  /** A fault event means that the run's phase ends with "fail"; and once the phase has ended, it is
      there exactly when the body failed and no abort had been accepted by the second look at the flag. */
  lemma {:induction false} FaultExactly(s: State, n: nat)
    requires Reachable(s) && n in s.workers
    ensures var fault := Label(Fault, IssuedId(s.nonce, n), Fail);
            && (fault in LabelsOf(s.log, n) ==> VerdictOf(s.log, n) == Some(Fail))
            && (Rank(s.workers[n].pc) > ENDING ==>
                  (fault in LabelsOf(s.log, n) <==>
                     BodyResult(s.log, n) == Some(false) && !AbortBeforeRecheck(s.log, n)))
  {
    ReachableInv(s);
    assert RunInv(s, n);
  }

  lemma FaultedPhaseEndsInFail(s: State, n: nat, l: Label)
    requires Reachable(s) && n in s.workers
    requires Label(Fault, IssuedId(s.nonce, n), Fail) in LabelsOf(s.log, n)
    requires l in LabelsOf(s.log, n) && l.kind == PhaseEnd
    ensures l.verdict == Fail
  {
    FaultExactly(s, n);
    EndEventsCarryVerdict(s, n, l);
  }

  // ---- Reboots ----------------------------------------------------------------------------

  /** The reboot check, exactly: it reads the flag of whatever run is in the record by then. */
  lemma RestartExactly(s: State, n: nat)
    requires Reachable(s) && Enabled(s, CheckTail(n))
    ensures Apply(s, CheckTail(n)).workers[n].pc == Marking <==>
              && s.workers[n].run.request.workload.ControlledReboot?
              && BodyResult(s.log, n) == Some(true)
              && s.issued != [] && !AbortSeen(s.log, s.Last())
  {
    ReachableInv(s);
    assert RunInv(s, n);
    CheckTailReads(s, n);
  }

  lemma CheckTailReads(s: State, n: nat)
    requires CoreInv(s) && RunInv(s, n) && Enabled(s, CheckTail(n))
    ensures s.issued != [] && s.cur.abortRequested == AbortSeen(s.log, s.Last())
    ensures BodyResult(s.log, n) == Some(s.workers[n].ok)
  {
  }

  /** A marker names a controlled-reboot run of this session that waited its full duration; unless a
      later run had been admitted by the reboot check, that run passed. */
  lemma MarkerNamesWaitedRun(s: State)
    requires Reachable(s) && s.marker.valid
    ensures exists n: nat :: MarkedRun(s, n)
  {
    ReachableInv(s);
    var n := LastMarked(s.log).value;
    assert RunInv(s, n);
    VerdictAgreesWithAborts(s, n);
    assert MarkedRun(s, n);
  }

  predicate MarkedRun(s: State, n: nat) {
    && n < |s.issued|
    && s.marker.runId == IssuedId(s.nonce, n)
    && LastMarked(s.log) == Some(n)
    && s.issued[n].request.workload.ControlledReboot?
    && RanFor(s.log, n, s.issued[n].request.durationMs)
    && (|| (VerdictOf(s.log, n) == Some(Pass) && !AbortBeforeDecision(s.log, n))
        || (VerdictOf(s.log, n) == Some(Aborted) && AbortBeforeDecision(s.log, n) && NewerAtTail(s.log, n)))
  }

  lemma {:induction false} RunsThenStep(s: State, actions: seq<Action>, t: State, a: Action)
    requires Runs(s, actions, t) && Enabled(t, a)
    ensures Runs(s, actions + [a], Apply(t, a))
    decreases |actions|
  {
    var more := actions + [a];
    if actions != [] {
      RunsThenStep(Apply(s, actions[0]), actions[1..], t, a);
      assert more[1..] == actions[1..] + [a];
    } else {
      assert more[1..] == [];
    }
  }

  lemma {:induction false} ReachableRuns(s: State, actions: seq<Action>, t: State)
    requires Reachable(s) && Runs(s, actions, t)
    ensures Reachable(t)
    decreases |actions|
  {
    if actions != [] {
      ReachableStep(s, actions[0]);
      ReachableRuns(Apply(s, actions[0]), actions[1..], t);
    }
  }

  lemma ReachableStep(s: State, a: Action)
    requires Reachable(s) && Enabled(s, a)
    ensures Reachable(Apply(s, a))
  {
    var softwareReset, rtc, actions :| Runs(BootState(s.nonce, softwareReset, rtc), actions, s);
    RunsThenStep(BootState(s.nonce, softwareReset, rtc), actions, s, a);
    assert Apply(s, a).nonce == s.nonce;
  }

  // ---- Event numbers ----------------------------------------------------------------------

  /** The source whose number is taken and not yet committed, when no two are. */
  function Uncommitted(log: Log): Option<Source> {
    match log
    case Nil => None
    case Snoc(_, Numbered(src)) => Some(src)
    case Snoc(_, Committed(_, _)) => None
    case Snoc(h, _) => Uncommitted(h)
  }

  /** No emission overlaps another. */
  predicate Serial(log: Log) {
    match log
    case Nil => true
    case Snoc(h, Numbered(_)) => Serial(h) && Uncommitted(h) == None
    case Snoc(h, Committed(src, _)) => Serial(h) && Uncommitted(h) == Some(src)
    case Snoc(h, _) => Serial(h)
  }

  lemma {:induction false} SerialNumbersAreContiguous(log: Log)
    requires NumbersMatch(log) && Serial(log)
    ensures |Commits(log)| == if Uncommitted(log) == None then Numbers(log) else Numbers(log) - 1
    ensures Uncommitted(log).Some? ==> NumbersSince(log, Uncommitted(log).value) == 0
    ensures forall k :: 0 <= k < |Commits(log)| ==> Commits(log)[k].seqNo == Commits(log)[k].slotSeq == k + 1
  {
    if log.Snoc? {
      SerialNumbersAreContiguous(log.prev);
    }
  }

  /** When emissions do not overlap, the stored numbers run 1, 2, 3, ... up to the counter. */
  lemma EventNumbersContiguous(s: State)
    requires Reachable(s) && Serial(s.log)
    ensures forall k :: 0 <= k < |Commits(s.log)| ==> Commits(s.log)[k].seqNo == Commits(s.log)[k].slotSeq == k + 1
    ensures Uncommitted(s.log) == None ==> |Commits(s.log)| == s.seqNo
  {
    ReachableInv(s);
    SerialNumbersAreContiguous(s.log);
  }

  /** The emitter whose event the action puts in the ring. */
  function Committer(s: State, a: Action): Option<Source> {
    match a
    case CommitEvent(n) => Some(WorkerTask(n))
    case BootStep => if s.boot.BootCommitting? then Some(BootTask) else None
    case _ => None
  }

  /** In general the slot carries the event's own number exactly when nobody took one in between. */
  lemma SlotNumberExactly(s: State, a: Action)
    requires Reachable(s) && Enabled(s, a) && Committer(s, a).Some?
    ensures var log := Apply(s, a).log;
            && log.Snoc? && log.last.Committed? && log.last.source == Committer(s, a).value
            && log.last.event.slotSeq == s.seqNo
            && (log.last.event.slotSeq == log.last.event.seqNo <==> NumbersSince(s.log, Committer(s, a).value) == 0)
  {
    ReachableInv(s);
  }
}
