/** Station provisioning and reconnection as a step protocol: the submission handler, its one-slot
    mailbox, the worker that owns the radio, the driver and its event queue, and the retry timer. */
module StationProtocol {
  import opened Options
  import SerialIds
  import RetryBackoff

  // Disconnect reason 8: the station left on its own.
  const ASSOC_LEAVE := 8
  const APPLY_ATTEMPTS := 20
  const RETRY_RANGE := 0x1_0000_0000

  // The tag of the credentials the board booted with; submissions are numbered from 1.
  const BOOT_TAG := 0

  /** A submission: the identifier it was given, and what was submitted. Its number since boot is a tag
      that the statements below need; the firmware stores the identifier only. */
  datatype Creds = Creds(issue: nat, requestId: SerialIds.U32, ssid: string, password: string)

  datatype StaState = Unconfigured | Connecting | Connected | Disconnected

  datatype Outcome = NothingYet | Applied | Failed

  // The driver's link, tagged with the submission whose credentials it uses.
  datatype Link = Idle | Trying(tag: nat) | Up(tag: nat)

  datatype WifiEvent = Lost(reason: nat) | GotIp

  // Where the provisioning worker stands.
  datatype WorkerPc =
    | Waiting
    | Received(creds: Creds)
    | Flagged(creds: Creds)
    | TimerStopped(creds: Creds)
    | Applying(creds: Creds, attempt: nat)
    | Concluding(creds: Creds, applied: bool)
    | Publishing(creds: Creds, applied: bool)
    | Reconnecting

  datatype State = State(
    // the handler and its mailbox
    issued: nat,
    mailbox: Option<Creds>,
    // the worker, and what it publishes: the identifier, tagged with the submission's number
    worker: WorkerPc,
    published: nat,
    requestId: SerialIds.U32,
    outcome: Outcome,
    // the firmware's view of the station
    staState: StaState,
    configured: bool,
    reconfiguring: bool,
    retryCount: nat,
    lastReason: nat,
    ssid: string,
    // the retry timer, with the delay it was armed with
    timer: Option<nat>,
    // the driver: how often it has been told to connect, its credentials, its link, the last link that
    // came up, and unhandled events
    connects: nat,
    cfg: nat,
    link: Link,
    lastUp: nat,
    events: seq<WifiEvent>,
    // what has been published, oldest first
    history: seq<nat>,
    // the network stored at boot, and all submissions made, oldest first
    bootSsid: string,
    submitted: seq<Creds>)

  datatype Action =
    | Submit(ssid: string, password: string)
    | Receive
    | Flag
    | StopTimer
    | Disconnect
    | TryApply(driverOk: bool)
    | Conclude
    | Publish
    | Reconnect
    | HandleEvent
    | TimerFires
    | LinkComesUp
    | AttemptFails(reason: nat)
    | LinkDrops(reason: nat)

  /** What the handler accepts. */
  predicate ValidSubmission(ssid: string, password: string) {
    && ssid != "" && |ssid| < 32
    && (password == "" || |password| >= 8) && |password| < 64
  }

  /** configure_sta's own length checks. */
  predicate FitsDriver(c: Creds) {
    1 <= |c.ssid| < 32 && |c.password| < 64
  }

  /** The state app_main leaves: with stored credentials, a first attempt is under way. */
  function BootState(ssid: string): State {
    var configured := ssid != "";
    State(0, None, Waiting, 0, 0, NothingYet,
          if configured then Connecting else Unconfigured, configured, false, 0, 0, ssid,
          None, if configured then 1 else 0, BOOT_TAG, if configured then Trying(BOOT_TAG) else Idle, 0, [], [], ssid, [])
  }

  predicate Enabled(s: State, a: Action) {
    match a
    case Submit(ssid, password) => ValidSubmission(ssid, password)
    case Receive => s.worker.Waiting? && s.mailbox.Some?
    case Flag => s.worker.Received?
    case StopTimer => s.worker.Flagged?
    case Disconnect => s.worker.TimerStopped?
    // the pause before the first attempt lets the event task drain its queue
    case TryApply(_) => s.worker.Applying? && s.events == []
    case Conclude => s.worker.Concluding?
    case Publish => s.worker.Publishing?
    case Reconnect => s.worker.Reconnecting?
    case HandleEvent => s.events != []
    case TimerFires => s.timer.Some?
    case LinkComesUp => s.link.Trying?
    // the station's own leave is reported only for a disconnect the worker asked for
    case AttemptFails(reason) => s.link.Trying? && reason != ASSOC_LEAVE
    case LinkDrops(reason) => s.link.Up? && reason != ASSOC_LEAVE
  }

  function Apply(s: State, a: Action): State
    requires Enabled(s, a)
  {
    match a
    case Submit(ssid, password) =>
      var creds := Creds(s.issued + 1, SerialIds.NthId(s.issued + 1), ssid, password);
      s.(issued := s.issued + 1, mailbox := Some(creds), submitted := s.submitted + [creds])
    case Receive => s.(mailbox := None, worker := Received(s.mailbox.value))
    case Flag => s.(reconfiguring := true, worker := Flagged(s.worker.creds))
    case StopTimer => s.(timer := None, worker := TimerStopped(s.worker.creds))
    case Disconnect => Dropped(s, ASSOC_LEAVE).(worker := Applying(s.worker.creds, 0))
    case TryApply(driverOk) =>
      var c := s.worker.creds;
      if FitsDriver(c) && driverOk then s.(cfg := c.issue, ssid := c.ssid, worker := Concluding(c, true))
      else if s.worker.attempt + 1 < APPLY_ATTEMPTS then s.(worker := Applying(c, s.worker.attempt + 1))
      else s.(worker := Concluding(c, false))
    case Conclude =>
      s.(configured := s.configured || s.worker.applied, worker := Publishing(s.worker.creds, s.worker.applied))
    case Publish =>
      s.(retryCount := 0, staState := if s.configured then Connecting else Unconfigured, lastReason := 0,
         outcome := if s.worker.applied then Applied else Failed, published := s.worker.creds.issue,
         requestId := s.worker.creds.requestId,
         history := s.history + [s.worker.creds.issue], reconfiguring := false,
         worker := if s.configured then Reconnecting else Waiting)
    case Reconnect => ScheduleRetry(s).(worker := Waiting)
    case HandleEvent => Handle(s.(events := s.events[1..]), s.events[0])
    case TimerFires => Fire(s)
    case LinkComesUp => s.(link := Up(s.link.tag), lastUp := s.link.tag, events := s.events + [GotIp])
    case AttemptFails(reason) => Dropped(s, reason)
    case LinkDrops(reason) => Dropped(s, reason)
  }

  /** The link goes down and the driver says so; an idle driver says nothing. */
  function Dropped(s: State, reason: nat): State {
    if s.link.Idle? then s else s.(link := Idle, events := s.events + [Lost(reason)])
  }

  /** esp_wifi_connect: an attempt with the driver's present credentials; a busy driver goes on as it was. */
  function Connect(s: State): State {
    s.(connects := s.connects + 1, link := if s.link.Idle? then Trying(s.cfg) else s.link)
  }

  /** sta_schedule_retry: at once for the first attempts, otherwise by the timer. */
  function ScheduleRetry(s: State): State {
    var delay := RetryBackoff.RetryDelay(s.retryCount);
    var counted := s.(retryCount := (s.retryCount + 1) % RETRY_RANGE);
    if delay == 0 then Connect(counted.(staState := Connecting))
    else counted.(timer := Some(delay))
  }

  /** wifi_event, for the station's two events. */
  function Handle(s: State, e: WifiEvent): State {
    match e
    case Lost(reason) => HandleLost(s, reason)
    case GotIp => s.(staState := Connected, timer := None, retryCount := 0)
  }

  /** The disconnect event. */
  function HandleLost(s: State, reason: nat): State {
    var seen := s.(lastReason := reason, staState := Disconnected);
    if reason == ASSOC_LEAVE || s.reconfiguring || !s.configured then seen else ScheduleRetry(seen)
  }

  /** sta_retry_fire: a one-shot timer. */
  function Fire(s: State): State {
    var fired := s.(timer := None);
    if s.reconfiguring || !s.configured then fired else Connect(fired.(staState := Connecting))
  }

  ghost predicate Runs(s: State, actions: seq<Action>, t: State)
    decreases |actions|
  {
    if actions == [] then s == t
    else Enabled(s, actions[0]) && Runs(Apply(s, actions[0]), actions[1..], t)
  }

  ghost predicate Reachable(s: State) {
    exists ssid, actions :: Runs(BootState(ssid), actions, s)
  }
}
