/** The run lifecycle as a step protocol: the HTTP handler, the boot task and any number of workload
    tasks, interleaved one lock section (or one unlocked access to shared state) at a time. */
module RunProtocol {
  import opened Options
  import opened RunRecord
  import RunIdentity

  datatype Kind = BootEvent | ResetReason | Ready | PhaseStart | Fault | PhaseEnd | RunComplete

  // The task that emits an event: the boot task, or the worker of the n-th admitted run.
  datatype Source = BootTask | WorkerTask(n: nat)

  // An event's number is taken before the lock; the ring slot records the counter found under the lock.
  datatype Event = Event(body: Label, seqNo: nat, slotSeq: nat)

  datatype Label = Label(kind: Kind, runId: string, verdict: Verdict)

  /** The history of a boot session, newest entry last. Run n is the n-th admitted, from zero. */
  datatype Log = Nil | Snoc(prev: Log, last: Entry)

  datatype Entry =
    | Admitted(n: nat)
    | NotSpawned(n: nat)
    | AbortAccepted(n: nat)
    | BodyEnded(n: nat, ok: bool, waitedMs: int)
    | Decided(n: nat, verdict: Verdict)
    | Rechecked(n: nat)
    | Finished(n: nat)
    | TailChecked(n: nat, restart: bool)
    | Marked(n: nat)
    | Numbered(source: Source)
    | Committed(source: Source, event: Event)

  // Where a workload task stands.
  datatype Pc =
    | Spawned
    | Numbering(kind: Kind)
    | Committing(kind: Kind, seqNo: nat)
    | EnteringBody
    | InBody
    | Deciding
    | Rechecking
    | Finishing
    | Tail
    | Marking
    | Restarting
    | Gone

  // A workload task: its copy of the run, and its local variables.
  datatype Worker = Worker(pc: Pc, run: Run, ok: bool, verdict: Verdict, enteredAt: nat)

  // Where the boot task stands; the HTTP server runs from StartingHttp on.
  datatype BootPc = BootNumbering(kind: Kind) | BootCommitting(kind: Kind, seqNo: nat) | StartingHttp | BootDone

  // An admitted run: the identifier it was given and what was asked for.
  datatype Issued = Issued(runId: string, request: Request)

  // The reboot marker in memory that survives a software reset.
  datatype Marker = Marker(valid: bool, runId: string)

  datatype State = State(
    nonce: RunIdentity.U32,
    previous: Option<string>,
    marker: Marker,
    restarting: bool,
    issued: seq<Issued>,
    cur: Run,
    creating: bool,
    seqNo: nat,
    now: nat,
    boot: BootPc,
    workers: map<nat, Worker>,
    log: Log)
  {
    predicate HttpUp() {
      match boot
      case BootNumbering(k) => k == Ready
      case BootCommitting(k, _) => k == Ready
      case StartingHttp => false
      case BootDone => true
    }

    function Last(): nat
      requires issued != []
    {
      |issued| - 1
    }

    function PreviousId(): string {
      if previous.Some? then previous.value else ""
    }
  }

  datatype Action =
    | Tick(ms: nat)
    | BootStep
    | Admit(request: Request)
    | Spawn
    | SpawnFails
    | AbortRequest(runId: string)
    | Copy(n: nat)
    | TakeNumber(n: nat)
    | CommitEvent(n: nat)
    | EnterBody(n: nat)
    | EndBody(n: nat, ok: bool)
    | Decide(n: nat)
    | Recheck(n: nat)
    | FinishRun(n: nat)
    | CheckTail(n: nat)
    | WriteMarker(n: nat)
    | Restart(n: nat)

  /** The identifier of the n-th admitted run: the counter is advanced first, and is 32 bits wide. */
  function IssuedId(nonce: RunIdentity.U32, n: nat): string {
    RunIdentity.RunId(nonce, (n + 1) % RunIdentity.COUNTER_RANGE)
  }

  function Judge(aborted: bool, ok: bool): Verdict {
    if aborted then Aborted else if ok then Pass else Fail
  }

  /** The verdict field of an event: none for a phase start, "fail" for a fault. */
  function EventVerdict(w: Worker, kind: Kind): Verdict {
    match kind
    case PhaseStart => NoVerdict
    case Fault => Fail
    case _ => w.verdict
  }

  function AfterCommit(kind: Kind): Pc {
    match kind
    case PhaseStart => EnteringBody
    case Fault => Numbering(PhaseEnd)
    case PhaseEnd => Finishing
    case _ => Tail
  }

  predicate At(s: State, n: nat, pc: Pc) {
    n in s.workers && s.workers[n].pc == pc
  }

  /** When the body of a workload can return `ok`. A wait returns true once its deadline has passed,
      without looking at the abort flag again, and false only on an abort or for want of a network;
      every other body reads the abort flag last and never returns true when it is set. */
  predicate BodyCanEnd(s: State, w: Worker, ok: bool) {
    if w.run.request.workload.Waits() then
      if ok then s.now >= w.enteredAt + w.run.request.durationMs
      else s.cur.abortRequested || w.run.request.workload.WifiAssociatedIdle?
    else ok ==> !s.cur.abortRequested
  }

  predicate Enabled(s: State, a: Action) {
    && !s.restarting
    && match a
       case Tick(_) => true
       case BootStep => !s.boot.BootDone?
       case Admit(r) => s.HttpUp() && Acceptable(r) && !s.cur.Active()
       case Spawn => s.creating && s.issued != []
       case SpawnFails => s.creating && s.issued != []
       case AbortRequest(_) => s.HttpUp() && s.issued != []
       case Copy(n) => At(s, n, Spawned)
       case TakeNumber(n) => n in s.workers && s.workers[n].pc.Numbering?
       case CommitEvent(n) => n in s.workers && s.workers[n].pc.Committing?
       case EnterBody(n) => At(s, n, EnteringBody)
       case EndBody(n, ok) => At(s, n, InBody) && BodyCanEnd(s, s.workers[n], ok)
       case Decide(n) => At(s, n, Deciding)
       case Recheck(n) => At(s, n, Rechecking)
       case FinishRun(n) => At(s, n, Finishing)
       case CheckTail(n) => At(s, n, Tail)
       case WriteMarker(n) => At(s, n, Marking)
       case Restart(n) => At(s, n, Restarting)
  }

  function Apply(s: State, a: Action): State
    requires Enabled(s, a)
  {
    match a
    case Tick(ms) => s.(now := s.now + ms)
    case BootStep => ApplyBoot(s)
    case Admit(r) =>
      var n := |s.issued|;
      var id := IssuedId(s.nonce, n);
      s.(issued := s.issued + [Issued(id, r)], cur := Begin(r, id, s.now), creating := true,
         log := Snoc(s.log, Admitted(n)))
    case Spawn =>
      s.(creating := false, workers := s.workers[s.Last() := Worker(Spawned, s.cur, true, NoVerdict, 0)])
    case SpawnFails =>
      s.(creating := false, cur := Finish(s.cur, Fail, s.now), log := Snoc(s.log, NotSpawned(s.Last())))
    case AbortRequest(id) =>
      var (ok, cur) := Abort(s.cur, id);
      if ok then s.(cur := cur, log := Snoc(s.log, AbortAccepted(s.Last()))) else s
    case _ => ApplyWorker(s, a.n, s.workers[a.n], a)
  }

  /** The boot task: emits "boot" and "reset_reason", starts HTTP, emits "ready". */
  function ApplyBoot(s: State): State
    requires !s.boot.BootDone?
  {
    match s.boot
    case BootNumbering(k) =>
      s.(seqNo := s.seqNo + 1, boot := BootCommitting(k, s.seqNo + 1), log := Snoc(s.log, Numbered(BootTask)))
    case BootCommitting(k, no) =>
      var next := if k == BootEvent then BootNumbering(ResetReason)
                  else if k == ResetReason then StartingHttp
                  else BootDone;
      s.(boot := next,
         log := Snoc(s.log, Committed(BootTask, Event(Label(k, s.PreviousId(), NoVerdict), no, s.seqNo))))
    case StartingHttp => s.(boot := BootNumbering(Ready))
  }

  /** One step of the workload task of run n. */
  function ApplyWorker(s: State, n: nat, w: Worker, a: Action): State
    requires Enabled(s, a) && n in s.workers && s.workers[n] == w
    requires !a.Tick? && !a.BootStep? && !a.Admit? && !a.Spawn? && !a.SpawnFails? && !a.AbortRequest? && a.n == n
  {
    match a
    case Copy(_) =>
      Go(s, n, w.(run := s.cur, pc := Numbering(PhaseStart)))
    case TakeNumber(_) =>
      Go(s, n, w.(pc := Committing(w.pc.kind, s.seqNo + 1))).(seqNo := s.seqNo + 1,
         log := Snoc(s.log, Numbered(WorkerTask(n))))
    case CommitEvent(_) =>
      var body := Label(w.pc.kind, w.run.runId, EventVerdict(w, w.pc.kind));
      Go(s, n, w.(pc := AfterCommit(w.pc.kind))).(
         log := Snoc(s.log, Committed(WorkerTask(n), Event(body, w.pc.seqNo, s.seqNo))))
    case EnterBody(_) =>
      Go(s, n, w.(pc := InBody, enteredAt := s.now))
    case EndBody(_, ok) =>
      Go(s, n, w.(pc := Deciding, ok := ok)).(log := Snoc(s.log, BodyEnded(n, ok, s.now - w.enteredAt)))
    case Decide(_) =>
      var verdict := Judge(s.cur.abortRequested, w.ok);
      Go(s, n, w.(pc := Rechecking, verdict := verdict)).(log := Snoc(s.log, Decided(n, verdict)))
    case Recheck(_) =>
      if w.ok then Go(s, n, w.(pc := Numbering(PhaseEnd)))
      else
        var next := if s.cur.abortRequested then PhaseEnd else Fault;
        Go(s, n, w.(pc := Numbering(next))).(log := Snoc(s.log, Rechecked(n)))
    case FinishRun(_) =>
      Go(s, n, w.(pc := Numbering(RunComplete))).(
         cur := Finish(s.cur, w.verdict, s.now), log := Snoc(s.log, Finished(n)))
    case CheckTail(_) =>
      var restart := w.run.request.workload.ControlledReboot? && w.ok && !s.cur.abortRequested;
      Go(s, n, w.(pc := if restart then Marking else Gone)).(log := Snoc(s.log, TailChecked(n, restart)))
    case WriteMarker(_) =>
      Go(s, n, w.(pc := Restarting)).(marker := Marker(true, w.run.runId), log := Snoc(s.log, Marked(n)))
    case Restart(_) =>
      s.(restarting := true)
  }

  function Go(s: State, n: nat, w: Worker): State {
    s.(workers := s.workers[n := w])
  }

  /** The state app_main sets up: the marker is trusted only after a software reset, reported once and
      consumed. */
  function BootState(nonce: RunIdentity.U32, softwareReset: bool, rtc: Marker): State {
    var marker := if softwareReset then rtc else rtc.(valid := false);
    State(nonce, if marker.valid then Some(marker.runId) else None, marker.(valid := false), false,
          [], IdleRun(), false, 0, 0, BootNumbering(BootEvent), map[], Nil)
  }

  /** A run of the system: each action is enabled where it is taken. */
  ghost predicate Runs(s: State, actions: seq<Action>, t: State)
    decreases |actions|
  {
    if actions == [] then s == t
    else Enabled(s, actions[0]) && Runs(Apply(s, actions[0]), actions[1..], t)
  }

  // ---- What a history says ----------------------------------------------------------------

  /** The lifecycle events run n's worker has put in the ring, oldest first. */
  function LabelsOf(log: Log, n: nat): seq<Label> {
    match log
    case Nil => []
    case Snoc(h, Committed(src, e)) =>
      if src == WorkerTask(n) then LabelsOf(h, n) + [e.body] else LabelsOf(h, n)
    case Snoc(h, _) => LabelsOf(h, n)
  }

  function Admissions(log: Log): nat {
    match log
    case Nil => 0
    case Snoc(h, Admitted(_)) => Admissions(h) + 1
    case Snoc(h, _) => Admissions(h)
  }

  predicate AbortSeen(log: Log, n: nat) {
    match log
    case Nil => false
    case Snoc(h, e) => e == AbortAccepted(n) || AbortSeen(h, n)
  }

  /** The verdict run n's worker settled on, if it has. */
  function VerdictOf(log: Log, n: nat): Option<Verdict> {
    match log
    case Nil => None
    case Snoc(h, Decided(m, v)) => if m == n then Some(v) else VerdictOf(h, n)
    case Snoc(h, _) => VerdictOf(h, n)
  }

  /** An abort of run n was accepted before its worker read the flag for the verdict. */
  predicate AbortBeforeDecision(log: Log, n: nat) {
    match log
    case Nil => false
    case Snoc(h, Decided(m, _)) => if m == n then AbortSeen(h, n) else AbortBeforeDecision(h, n)
    case Snoc(h, _) => AbortBeforeDecision(h, n)
  }

  predicate HasRechecked(log: Log, n: nat) {
    match log
    case Nil => false
    case Snoc(h, e) => e == Rechecked(n) || HasRechecked(h, n)
  }

  /** An abort of run n was accepted before its worker read the flag again to report a fault. */
  predicate AbortBeforeRecheck(log: Log, n: nat) {
    match log
    case Nil => false
    case Snoc(h, e) => if e == Rechecked(n) then AbortSeen(h, n) else AbortBeforeRecheck(h, n)
  }

  /** What run n's body returned, if it has. */
  function BodyResult(log: Log, n: nat): Option<bool> {
    match log
    case Nil => None
    case Snoc(h, BodyEnded(m, ok, _)) => if m == n then Some(ok) else BodyResult(h, n)
    case Snoc(h, _) => BodyResult(h, n)
  }

  /** Run n's body returned true after at least the given time. */
  predicate RanFor(log: Log, n: nat, ms: nat) {
    match log
    case Nil => false
    case Snoc(h, e) => (e.BodyEnded? && e.n == n && e.ok && e.waitedMs >= ms) || RanFor(h, n, ms)
  }

  /** A later run had been admitted when run n's worker made its reboot check. */
  predicate NewerAtTail(log: Log, n: nat) {
    match log
    case Nil => false
    case Snoc(h, TailChecked(m, _)) => if m == n then Admissions(h) > n + 1 else NewerAtTail(h, n)
    case Snoc(h, _) => NewerAtTail(h, n)
  }

  function LastMarked(log: Log): Option<nat> {
    match log
    case Nil => None
    case Snoc(h, Marked(n)) => Some(n)
    case Snoc(h, _) => LastMarked(h)
  }

  /** The run whose phase has started and not ended, by the order of the ring. */
  function OpenPhase(log: Log): Option<nat> {
    match log
    case Nil => None
    case Snoc(h, Committed(WorkerTask(n), e)) =>
      if e.body.kind == PhaseStart then Some(n)
      else if e.body.kind == PhaseEnd then None
      else OpenPhase(h)
    case Snoc(h, _) => OpenPhase(h)
  }

  /** Phases never overlap: a phase starts only when none is open, and the open one is the one ended. */
  predicate PhasesAlternate(log: Log) {
    match log
    case Nil => true
    case Snoc(h, Committed(WorkerTask(n), e)) =>
      && PhasesAlternate(h)
      && (e.body.kind == PhaseStart ==> OpenPhase(h) == None)
      && (e.body.kind == PhaseEnd ==> OpenPhase(h) == Some(n))
    case Snoc(h, _) => PhasesAlternate(h)
  }

  /** How often the event counter has been advanced. */
  function Numbers(log: Log): nat {
    match log
    case Nil => 0
    case Snoc(h, Numbered(_)) => Numbers(h) + 1
    case Snoc(h, _) => Numbers(h)
  }

  /** How often it has been advanced since this source last took a number. */
  function NumbersSince(log: Log, source: Source): nat {
    match log
    case Nil => 0
    case Snoc(h, Numbered(src)) => if src == source then 0 else NumbersSince(h, source) + 1
    case Snoc(h, _) => NumbersSince(h, source)
  }

  /** The committed events, oldest first: what the event ring is a window on. */
  function Commits(log: Log): seq<Event> {
    match log
    case Nil => []
    case Snoc(h, Committed(_, e)) => Commits(h) + [e]
    case Snoc(h, _) => Commits(h)
  }
}
