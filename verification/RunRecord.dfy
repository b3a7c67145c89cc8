/** The run record of db_run.c: what a run is, which requests are accepted, and the three operations
    that move a run through its life. */
module RunRecord {

  // The longest duration a request may ask for, in milliseconds.
  const MAX_DURATION_MS := 3600000

  datatype Workload =
    | Boot | Idle | WifiAssociatedIdle | NetTx | NetRx | NetBidirectional
    | CpuStress | FlashWrite | NvsWrite | OtaPartitionWrite | ControlledReboot
  {
    predicate Network() {
      NetTx? || NetRx? || NetBidirectional?
    }

    /** Workloads whose body is the plain abortable wait, possibly refused for want of a network. */
    predicate Waits() {
      Boot? || Idle? || WifiAssociatedIdle? || ControlledReboot?
    }
  }

  datatype Request = Request(workload: Workload, durationMs: nat, rateBps: nat, port: nat, host: string)

  datatype RunState = Idling | Running | Aborting | Complete

  datatype Verdict = NoVerdict | InProgress | Pass | Fail | Aborted

  datatype Run = Run(runId: string, request: Request, state: RunState, abortRequested: bool,
                     verdict: Verdict, startedMs: nat, endedMs: nat)
  {
    predicate Active() {
      state.Running? || state.Aborting?
    }
  }

  datatype Rejection = DurationOutOfRange | MissingPeer | UnsupportedHostCharacter

  datatype Validation = Accepted | Rejected(why: Rejection)

  predicate HostChar(c: char) {
    'a' <= c <= 'z' || 'A' <= c <= 'Z' || '0' <= c <= '9' || c == '.' || c == '-' || c == '_' || c == ':'
  }

  /** What an accepted request looks like. */
  predicate Acceptable(r: Request) {
    && 1 <= r.durationMs <= MAX_DURATION_MS
    && (r.workload.Network() ==> r.host != "" && r.port != 0 && forall c :: c in r.host ==> HostChar(c))
  }

  /** The characters of a host by their codes: digits, letters of either case, and "-", ".", ":", "_". */
  lemma HostAlphabet(c: char)
    ensures HostChar(c) <==> (var code := c as int;
                              48 <= code <= 57 || 65 <= code <= 90 || 97 <= code <= 122 || code in {45, 46, 58, 95})
  {
  }

  /** An event's parameters quote the host as it was submitted. For the three network workloads an
      accepted host has no character that a JSON string would have to escape; for every other workload
      any host is accepted. */
  lemma AcceptedHosts(r: Request)
    ensures r.workload in {NetTx, NetRx, NetBidirectional} && Acceptable(r) ==>
              r.host != "" && r.port != 0 && forall c :: c in r.host ==> ' ' <= c && c != '"' && c != '\\'
    ensures r.workload !in {NetTx, NetRx, NetBidirectional} ==> (Acceptable(r) <==> 1 <= r.durationMs <= 3600000)
  {
  }

  method ValidateRequest(r: Request) returns (v: Validation)
    ensures v.Accepted? <==> Acceptable(r)
    ensures v == Rejected(DurationOutOfRange) <==> r.durationMs == 0 || r.durationMs > MAX_DURATION_MS
    ensures v == Rejected(MissingPeer) <==>
              1 <= r.durationMs <= MAX_DURATION_MS && r.workload.Network() && (r.host == "" || r.port == 0)
  {
    if r.durationMs == 0 || r.durationMs > MAX_DURATION_MS {
      return Rejected(DurationOutOfRange);
    }
    if r.workload.Network() && (r.host == "" || r.port == 0) {
      return Rejected(MissingPeer);
    }
    if r.workload.Network() {
      var p := 0;
      while p < |r.host|
        invariant 0 <= p <= |r.host|
        invariant forall q :: 0 <= q < p ==> HostChar(r.host[q])
      {
        if !HostChar(r.host[p]) {
          return Rejected(UnsupportedHostCharacter);
        }
        p := p + 1;
      }
    }
    return Accepted;
  }

  // The record after each operation; the firmware applies them to one shared record.

  function Begin(request: Request, runId: string, nowMs: nat): Run {
    Run(runId, request, Running, false, InProgress, nowMs, 0)
  }

  function Abort(run: Run, runId: string): (bool, Run) {
    if run.state != Running || run.runId != runId then (false, run)
    else (true, run.(abortRequested := true, state := Aborting))
  }

  function Finish(run: Run, verdict: Verdict, nowMs: nat): Run {
    run.(state := Complete, endedMs := nowMs, verdict := verdict)
  }

  /** The shared record, updated in place. */
  class DbRun {
    var runId: string
    var request: Request
    var state: RunState
    var abortRequested: bool
    var verdict: Verdict
    var startedMs: nat
    var endedMs: nat

    function View(): Run
      reads this
    {
      Run(runId, request, state, abortRequested, verdict, startedMs, endedMs)
    }

    /** The record as app_main leaves it: zeroed, idle, with no verdict. */
    constructor ()
      ensures View() == IdleRun()
    {
      runId, request, state := "", Request(Idle, 0, 0, 0, ""), Idling;
      abortRequested, verdict, startedMs, endedMs := false, NoVerdict, 0, 0;
    }

    method BeginRun(request: Request, runId: string, nowMs: nat)
      modifies this
      ensures View() == Begin(request, runId, nowMs)
    {
      abortRequested, endedMs := false, 0;
      this.request := request;
      this.runId := runId;
      state := Running;
      startedMs := nowMs;
      verdict := InProgress;
    }

    method AbortRun(id: string) returns (ok: bool)
      modifies this
      ensures (ok, View()) == Abort(old(View()), id)
    {
      if state != Running || runId != id { return false; }
      abortRequested := true;
      state := Aborting;
      return true;
    }

    method FinishRun(v: Verdict, nowMs: nat)
      modifies this
      ensures View() == Finish(old(View()), v, nowMs)
    {
      state := Complete;
      endedMs := nowMs;
      verdict := v;
    }
  }

  function IdleRun(): Run {
    Run("", Request(Idle, 0, 0, 0, ""), Idling, false, NoVerdict, 0, 0)
  }
}
