/** What every step of the station protocol keeps. */
module StationInvariant {
  import opened Options
  import opened StationProtocol
  import SerialIds
  import RetryBackoff

  /** The submission in the worker's hands, if any. */
  function InHand(s: State): Option<Creds> {
    match s.worker
    case Waiting => None
    case Reconnecting => None
    case _ => Some(s.worker.creds)
  }

  /** Submissions move in order through mailbox, worker and publication, and the newest is in one of
      the three. */
  predicate QueueInv(s: State) {
    && (s.mailbox.Some? ==> Proper(s.mailbox.value) && s.mailbox.value.issue == s.issued)
    && (InHand(s).Some? ==> Proper(InHand(s).value) && s.published < InHand(s).value.issue <= s.issued)
    && (s.mailbox.Some? && InHand(s).Some? ==> InHand(s).value.issue < s.mailbox.value.issue)
    && (s.mailbox.Some? ==> s.published < s.issued)
    && (s.mailbox.None? ==> if InHand(s).Some? then InHand(s).value.issue == s.issued else s.published == s.issued)
    && s.published <= s.issued
    && s.requestId == SerialIds.NthId(s.published)
  }

  /** What the handler lets through, under its own identifier. */
  predicate Proper(c: Creds) {
    ValidSubmission(c.ssid, c.password) && c.requestId == SerialIds.NthId(c.issue)
  }

  /** Submissions travel unchanged, and the driver's credentials are those of the one applied last, or
      the stored ones. */
  predicate SubmittedInv(s: State) {
    && |s.submitted| == s.issued
    && (forall k :: 0 <= k < |s.submitted| ==> s.submitted[k].issue == k + 1)
    && (s.mailbox.Some? ==> Recorded(s, s.mailbox.value))
    && (InHand(s).Some? ==> Recorded(s, InHand(s).value))
    && s.cfg <= s.issued
    && s.ssid == (if s.cfg == BOOT_TAG then s.bootSsid else s.submitted[s.cfg - 1].ssid)
  }

  predicate Recorded(s: State, c: Creds) {
    1 <= c.issue <= |s.submitted| && s.submitted[c.issue - 1] == c
  }

  /** The driver has accepted a submission, and the worker has not yet noted it. */
  predicate UnconcludedSuccess(s: State) {
    s.worker.Concluding? && s.worker.applied
  }

  /** What the displayed state stands for. */
  predicate StatusInv(s: State) {
    && (s.configured ==> s.bootSsid != "" || s.cfg != BOOT_TAG)
    && (s.bootSsid != "" || (s.cfg != BOOT_TAG && !UnconcludedSuccess(s)) ==> s.configured)
    && (!s.configured ==> s.staState == Unconfigured && s.connects == 0)
    && (s.configured && !s.worker.Publishing? ==> s.staState != Unconfigured)
    && (s.link.Trying? ==> s.staState == Connecting)
    && (s.timer.Some? ==> s.staState == Disconnected)
    && (s.staState == Connected ==> s.retryCount == 0)
    && (s.worker.Reconnecting? ==> s.staState == Connecting && s.lastReason == 0)
  }

  predicate HistoryInv(s: State) {
    && (forall i, j :: 0 <= i < j < |s.history| ==> s.history[i] < s.history[j])
    && (forall i :: 0 <= i < |s.history| ==> 1 <= s.history[i] <= s.published)
    && s.published == (if s.history == [] then 0 else s.history[|s.history| - 1])
    && (s.published == 0 <==> s.outcome == NothingYet)
  }

  /** The worker is inside its reconfiguration, with the link already torn down. */
  predicate TornDown(s: State) {
    s.worker.Applying? || s.worker.Concluding? || s.worker.Publishing?
  }

  /** The events not yet handled are those of the one connection that ended, or came up, last. */
  predicate DriverInv(s: State) {
    && (s.link.Trying? ==> s.events == [] && s.link.tag == s.cfg && s.staState != Connected)
    && (s.link.Up? ==> s.link.tag == s.cfg == s.lastUp
                       && (s.events == [GotIp] || (s.events == [] && s.staState == Connected)))
    && (s.link.Idle? ==> s.events == [] || OneLoss(s.events) || LossAfterIp(s.events))
    && (s.link.Idle? && s.events == [] ==> s.staState != Connected)
    && (s.staState == Connected || (s.events != [] && s.events[0] == GotIp) ==> s.lastUp == s.cfg)
    && (s.events != [] && s.events[0] == GotIp ==> s.staState != Connected)
    && (!s.configured ==> s.link.Idle? && s.events == [])
  }

  predicate OneLoss(events: seq<WifiEvent>) {
    |events| == 1 && events[0].Lost?
  }

  predicate LossAfterIp(events: seq<WifiEvent>) {
    |events| == 2 && events[0] == GotIp && events[1].Lost?
  }

  /** The worker's attempts are over and their outcome is not yet published. */
  predicate OutcomePending(s: State) {
    s.worker.Concluding? || s.worker.Publishing?
  }

  /** The driver already has credentials whose outcome is not yet published. */
  predicate CfgReplaced(s: State) {
    OutcomePending(s) && s.worker.applied
  }

  predicate ReconfigureInv(s: State) {
    && (s.reconfiguring <==> InHand(s).Some? && !s.worker.Received?)
    && (s.worker.TimerStopped? || TornDown(s) ==> s.timer.None?)
    && (TornDown(s) ==> s.link.Idle?)
    && (OutcomePending(s) ==> s.events == [])
    && (s.worker.Concluding? && s.worker.applied ==> s.cfg == s.worker.creds.issue && s.ssid == s.worker.creds.ssid)
    && (s.worker.Publishing? && s.worker.applied ==> s.configured && s.cfg == s.worker.creds.issue && s.ssid == s.worker.creds.ssid)
    && (s.worker.Reconnecting? ==> s.configured && s.link.Idle? && s.events == [] && s.timer.None? && s.retryCount == 0)
    && (s.outcome == Applied && !CfgReplaced(s) ==> s.configured && s.cfg == s.published)
    && s.cfg <= s.issued
    && (s.outcome == NothingYet && !CfgReplaced(s) ==> s.cfg == BOOT_TAG)
    && (s.events != [] && s.events[|s.events| - 1] == Lost(ASSOC_LEAVE) ==> s.worker.Applying?)
    && (s.outcome == Failed && !CfgReplaced(s) ==> s.cfg < s.published)
    && (InHand(s).Some? && !CfgReplaced(s) ==> s.cfg < InHand(s).value.issue)
  }

  /** The station has not given up: unless the worker is about to connect, something is under way. */
  predicate Alive(s: State) {
    s.configured && !s.reconfiguring && !s.worker.Reconnecting? ==>
      || !s.link.Idle?
      || s.timer.Some?
      || (s.events != [] && s.events[|s.events| - 1].Lost? && s.events[|s.events| - 1].reason != ASSOC_LEAVE)
  }

  predicate TimerInv(s: State) {
    && s.retryCount < RETRY_RANGE
    && (s.timer.Some? ==>
          && s.link.Idle? && s.events == [] && s.configured
          && s.timer.value == RetryBackoff.RetryDelay((s.retryCount + RETRY_RANGE - 1) % RETRY_RANGE) > 0)
  }

  predicate Inv(s: State) {
    && QueueInv(s) && HistoryInv(s) && DriverInv(s) && ReconfigureInv(s) && TimerInv(s) && Alive(s)
    && SubmittedInv(s) && StatusInv(s)
  }

  lemma BootInv(ssid: string)
    ensures Inv(BootState(ssid))
  {
  }

  predicate OfWorker(a: Action) {
    a.Receive? || a.Flag? || a.StopTimer? || a.Disconnect? || a.TryApply? || a.Conclude? || a.Publish? || a.Reconnect?
  }

  lemma {:induction false} StepKeepsQueue(s: State, a: Action)
    requires QueueInv(s) && Enabled(s, a)
    ensures QueueInv(Apply(s, a))
  {
    if OfWorker(a) { WorkerStepKeepsQueue(s, a); }
    else if !a.Submit? { DriverStepsQueueNothing(s, a); }
  }

  lemma {:induction false} PublishKeepsQueue(s: State, a: Action)
    requires QueueInv(s) && Enabled(s, a) && a.Publish?
    ensures QueueInv(Apply(s, a))
  {
  }

  lemma {:induction false} WorkerStepKeepsQueue(s: State, a: Action)
    requires QueueInv(s) && Enabled(s, a) && OfWorker(a)
    ensures QueueInv(Apply(s, a))
  {
    if a.Publish? {
      PublishKeepsQueue(s, a);
    } else if !a.Receive? {
      var t := Apply(s, a);
      assert t.mailbox == s.mailbox && t.issued == s.issued && InHand(t) == InHand(s) && t.published == s.published;
    }
  }

  lemma {:induction false} DriverStepsQueueNothing(s: State, a: Action)
    requires Enabled(s, a) && !OfWorker(a) && !a.Submit?
    ensures var t := Apply(s, a);
            && t.issued == s.issued && t.mailbox == s.mailbox && t.worker == s.worker
            && t.published == s.published && t.requestId == s.requestId
  {
  }

  lemma {:induction false} StepKeepsHistory(s: State, a: Action)
    requires QueueInv(s) && HistoryInv(s) && Enabled(s, a)
    ensures HistoryInv(Apply(s, a))
  {
    if a.Publish? {
      assert Apply(s, a).history == s.history + [s.worker.creds.issue];
    } else {
      OtherStepsPublishNothing(s, a);
    }
  }

  lemma OtherStepsPublishNothing(s: State, a: Action)
    requires Enabled(s, a) && !a.Publish?
    ensures var t := Apply(s, a); t.history == s.history && t.published == s.published && t.outcome == s.outcome
  {
  }

  lemma {:induction false} WorkerStepKeepsDriver(s: State, a: Action)
    requires DriverInv(s) && ReconfigureInv(s) && Enabled(s, a) && OfWorker(a)
    ensures DriverInv(Apply(s, a))
  {
  }

  lemma {:induction false} OtherStepKeepsDriver(s: State, a: Action)
    requires DriverInv(s) && TimerInv(s) && Enabled(s, a) && !OfWorker(a)
    ensures DriverInv(Apply(s, a))
  {
  }

  lemma {:induction false} PublishKeepsReconfigure(s: State, a: Action)
    requires QueueInv(s) && ReconfigureInv(s) && Enabled(s, a) && a.Publish?
    ensures ReconfigureInv(Apply(s, a))
  {
  }

  lemma {:induction false} WorkerStepKeepsReconfigure(s: State, a: Action)
    requires QueueInv(s) && ReconfigureInv(s) && Enabled(s, a) && OfWorker(a)
    requires HistoryInv(s) && DriverInv(s) && TimerInv(s)
    ensures ReconfigureInv(Apply(s, a))
  {
    if a.Publish? { PublishKeepsReconfigure(s, a); }
  }

  /** The handlers leave the worker, its submissions and the driver's credentials alone. */
  lemma {:induction false} HandlersLeaveWorker(s: State, a: Action)
    requires Enabled(s, a) && (a.HandleEvent? || a.TimerFires?)
    ensures var t := Apply(s, a);
            && t.worker == s.worker && t.reconfiguring == s.reconfiguring && t.configured == s.configured
            && t.outcome == s.outcome && t.published == s.published && t.cfg == s.cfg && t.ssid == s.ssid
            && t.issued == s.issued && t.events == (if a.HandleEvent? then s.events[1..] else s.events)
            && (s.reconfiguring ==> t.link == s.link && (t.timer == s.timer || t.timer == None))
            && (t.timer != s.timer ==> t.timer == None || (a.HandleEvent? && s.events[0].Lost?))
            && (t.link != s.link || t.retryCount != s.retryCount ==> a.TimerFires? || a.HandleEvent?)
  {
  }

  lemma {:induction false} HandlingKeepsReconfigure(s: State, a: Action)
    requires QueueInv(s) && ReconfigureInv(s) && Enabled(s, a) && (a.HandleEvent? || a.TimerFires?)
    requires DriverInv(s) && TimerInv(s)
    ensures ReconfigureInv(Apply(s, a))
  {
    HandlersLeaveWorker(s, a);
  }

  lemma {:induction false} OtherStepKeepsReconfigure(s: State, a: Action)
    requires QueueInv(s) && ReconfigureInv(s) && Enabled(s, a) && !OfWorker(a)
    requires DriverInv(s) && TimerInv(s)
    ensures ReconfigureInv(Apply(s, a))
  {
    if a.HandleEvent? || a.TimerFires? { HandlingKeepsReconfigure(s, a); }
  }

  lemma {:induction false} StepKeepsTimer(s: State, a: Action)
    requires DriverInv(s) && ReconfigureInv(s) && TimerInv(s) && Enabled(s, a)
    ensures TimerInv(Apply(s, a))
  {
  }

  lemma {:induction false} StepKeepsAlive(s: State, a: Action)
    requires Inv(s) && Enabled(s, a)
    ensures Alive(Apply(s, a))
  {
  }

  lemma {:induction false} TryApplyKeepsSubmitted(s: State, a: Action)
    requires SubmittedInv(s) && Enabled(s, a) && a.TryApply?
    ensures SubmittedInv(Apply(s, a))
  {
    var c, t := s.worker.creds, Apply(s, a);
    assert InHand(t) == Some(c) && t == s.(worker := t.worker, cfg := t.cfg, ssid := t.ssid);
    assert (t.cfg == s.cfg && t.ssid == s.ssid) || (t.cfg == c.issue && t.ssid == c.ssid);
  }

  /** Other steps of the worker leave what it has in hand, or take it from the mailbox, or let it go. */
  lemma {:induction false} WorkerHandsOn(s: State, a: Action)
    requires Enabled(s, a) && OfWorker(a) && !a.TryApply?
    ensures var t := Apply(s, a);
            && t.submitted == s.submitted && t.issued == s.issued && t.bootSsid == s.bootSsid
            && t.cfg == s.cfg && t.ssid == s.ssid
            && (t.mailbox == s.mailbox || t.mailbox == None)
            && (InHand(t) == None || InHand(t) == InHand(s) || InHand(t) == s.mailbox)
  {
  }

  lemma {:induction false} WorkerStepKeepsSubmitted(s: State, a: Action)
    requires SubmittedInv(s) && Enabled(s, a) && OfWorker(a)
    ensures SubmittedInv(Apply(s, a))
  {
    if a.TryApply? { TryApplyKeepsSubmitted(s, a); } else { WorkerHandsOn(s, a); }
  }

  lemma {:induction false} DriverStepsLeaveSubmissions(s: State, a: Action)
    requires Enabled(s, a) && !OfWorker(a) && !a.Submit?
    ensures var t := Apply(s, a);
            && t.worker == s.worker && t.mailbox == s.mailbox && t.cfg == s.cfg && t.ssid == s.ssid
            && t.bootSsid == s.bootSsid && t.submitted == s.submitted && t.issued == s.issued
  {
  }

  lemma {:induction false} OtherStepKeepsSubmitted(s: State, a: Action)
    requires SubmittedInv(s) && Enabled(s, a) && !OfWorker(a)
    ensures SubmittedInv(Apply(s, a))
  {
    if !a.Submit? { DriverStepsLeaveSubmissions(s, a); }
  }

  lemma {:induction false} WorkerStepKeepsStatus(s: State, a: Action)
    requires QueueInv(s) && DriverInv(s) && ReconfigureInv(s) && StatusInv(s) && Enabled(s, a) && OfWorker(a)
    ensures StatusInv(Apply(s, a))
  {
  }

  lemma {:induction false} OtherStepKeepsStatus(s: State, a: Action)
    requires DriverInv(s) && ReconfigureInv(s) && TimerInv(s) && StatusInv(s) && Enabled(s, a) && !OfWorker(a)
    ensures StatusInv(Apply(s, a))
  {
  }

  lemma {:induction false} StepKeepsInv(s: State, a: Action)
    requires Inv(s) && Enabled(s, a)
    ensures Inv(Apply(s, a))
  {
    if OfWorker(a) {
      WorkerStepKeepsSubmitted(s, a);
      WorkerStepKeepsStatus(s, a);
    } else {
      OtherStepKeepsSubmitted(s, a);
      OtherStepKeepsStatus(s, a);
    }
    StepKeepsQueue(s, a);
    StepKeepsHistory(s, a);
    if OfWorker(a) { WorkerStepKeepsDriver(s, a); } else { OtherStepKeepsDriver(s, a); }
    if OfWorker(a) { WorkerStepKeepsReconfigure(s, a); } else { OtherStepKeepsReconfigure(s, a); }
    StepKeepsTimer(s, a);
    StepKeepsAlive(s, a);
  }

  lemma {:induction false} RunsKeepInv(s: State, actions: seq<Action>, t: State)
    requires Inv(s) && Runs(s, actions, t)
    ensures Inv(t)
    decreases |actions|
  {
    if actions != [] {
      StepKeepsInv(s, actions[0]);
      RunsKeepInv(Apply(s, actions[0]), actions[1..], t);
    }
  }

  lemma ReachableInv(s: State)
    requires Reachable(s)
    ensures Inv(s)
  {
    var ssid, actions :| Runs(BootState(ssid), actions, s);
    BootInv(ssid);
    RunsKeepInv(BootState(ssid), actions, s);
  }

  lemma {:induction false} RunsThenStep(s: State, actions: seq<Action>, t: State, a: Action)
    requires Runs(s, actions, t) && Enabled(t, a)
    ensures Runs(s, actions + [a], Apply(t, a))
    decreases |actions|
  {
    var more := actions + [a];
    if actions != [] {
      RunsThenStep(Apply(s, actions[0]), actions[1..], t, a);
      assert more[1..] == actions[1..] + [a];
    } else {
      assert more[1..] == [];
    }
  }

  lemma ReachableStep(s: State, a: Action)
    requires Reachable(s) && Enabled(s, a)
    ensures Reachable(Apply(s, a))
  {
    var ssid, actions :| Runs(BootState(ssid), actions, s);
    RunsThenStep(BootState(ssid), actions, s, a);
  }
}
