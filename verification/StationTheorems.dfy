/** What provisioning promises, over every interleaving of submissions, the worker, the driver and the
    retry timer. */
module StationTheorems {
  import opened Options
  import opened StationProtocol
  import opened StationInvariant
  import opened SetupPage
  import SerialIds
  import RetryBackoff

  // ---- What the page may say --------------------------------------------------------------

  /** "Connected" is said of submission p only when the link came up with exactly p's credentials, and
      is still up unless its loss is waiting to be handled. An earlier connection never counts, not
      even to a network of the same name. Fewer than 2^32 - 1 submissions may lie between p and the
      one last published. */
  lemma ConnectedIsTruthful(s: State, p: nat, ssid: string)
    requires Reachable(s) && p >= 1 && -SerialIds.PERIOD < p - s.published < SerialIds.PERIOD
    requires Judged(Pending(SerialIds.NthId(p), ssid), ViewOf(s)).0.ConnectedTo?
    ensures s.published == p && s.cfg == p && s.lastUp == p && s.ssid == ssid
    ensures s.link == Up(p) || (s.link == Idle && OneLoss(s.events))
  {
    ReachableInv(s);
    SerialIds.SameIdExactly(s.published, p);
  }

  /** "Could not apply" is said of p only when p was tried and the driver does not hold its credentials. */
  lemma FailureIsTruthful(s: State, p: nat, ssid: string)
    requires Reachable(s) && p >= 1 && -SerialIds.PERIOD < p - s.published < SerialIds.PERIOD
    requires Judged(Pending(SerialIds.NthId(p), ssid), ViewOf(s)).0.CouldNotApply?
    ensures s.published == p && s.outcome == Failed && s.cfg != p
  {
    ReachableInv(s);
    SerialIds.SameIdExactly(s.published, p);
  }

  /** "Replaced" is said of p exactly when a later submission has been processed. */
  lemma ReplacedExactly(s: State, p: nat, ssid: string)
    requires Reachable(s) && -(SerialIds.HALF - 2) <= s.published - p <= SerialIds.HALF - 2
    ensures Judged(Pending(SerialIds.NthId(p), ssid), ViewOf(s)).0.Replaced? <==> s.published > p
  {
    ReachableInv(s);
    PageAgreesWithFirmware(SerialIds.NthId(s.published), SerialIds.NthId(p));
    SerialIds.NewerMeansLater(s.published, p);
    SerialIds.SameIdExactly(s.published, p);
  }

  /** All that the page says of submission p, exactly, p's own network being the one waited for. Fewer
      than 2^31 - 1 submissions lie between p and the one last published. */
  lemma PageSaysExactly(s: State, p: nat)
    requires Reachable(s) && 1 <= p <= |s.submitted|
    requires -(SerialIds.HALF - 2) <= s.published - p <= SerialIds.HALF - 2
    ensures var (said, waiting) := Judged(Pending(SerialIds.NthId(p), s.submitted[p - 1].ssid), ViewOf(s));
            && (said == Replaced <==> s.published > p)
            && (said == CouldNotApply <==> s.published == p && s.outcome == Failed)
            && (said.ConnectedTo? <==> s.published == p && s.outcome == Applied && s.staState == Connected)
            && (said.NotYet? <==> s.published == p && s.outcome == Applied && s.staState != Connected
                                  && s.lastReason !in {0, 8})
            && (waiting <==> s.published < p || (s.published == p && s.outcome == Applied && s.staState != Connected))
    ensures var said := Judged(Pending(SerialIds.NthId(p), s.submitted[p - 1].ssid), ViewOf(s)).0;
            && (said.ConnectedTo? ==> said.ssid == s.submitted[p - 1].ssid)
            && (said.NotYet? ==> said.ssid == s.submitted[p - 1].ssid && said.reason == s.lastReason)
  {
    ReachableInv(s);
    PageAgreesWithFirmware(SerialIds.NthId(s.published), SerialIds.NthId(p));
    SerialIds.NewerMeansLater(s.published, p);
    SerialIds.SameIdExactly(s.published, p);
    ConnectedShowsItsNetwork(s);
  }

  /** While connected after an applied submission, the network displayed is that submission's. */
  lemma ConnectedShowsItsNetwork(s: State)
    requires Inv(s)
    ensures s.outcome == Applied && s.staState == Connected ==>
              1 <= s.published <= |s.submitted| && s.ssid == s.submitted[s.published - 1].ssid
  {
  }

  /** The reason given is that of the last loss handled since the submission was published. */
  lemma ReasonIsOfLastLoss(s: State, a: Action)
    requires Enabled(s, a)
    ensures Apply(s, a).lastReason
            == if a.Publish? then 0
               else if a.HandleEvent? && s.events[0].Lost? then s.events[0].reason
               else s.lastReason
  {
  }

  // ---- What the displayed state stands for ------------------------------------------------

  /** The station is configured exactly when the board booted with a network or the driver has taken a
      submission, but for the step in which the worker notes that it has. */
  lemma ConfiguredExactly(s: State)
    requires Reachable(s)
    ensures !UnconcludedSuccess(s) ==> (s.configured <==> s.bootSsid != "" || s.cfg != BOOT_TAG)
    ensures s.configured ==> s.bootSsid != "" || s.cfg != BOOT_TAG
    ensures !s.worker.Publishing? ==> (s.configured <==> s.staState != Unconfigured)
    ensures !s.configured ==> s.connects == 0
  {
    ReachableInv(s);
  }

  /** A refused first submission leaves the board unconfigured: it says so, and does not connect. */
  lemma RefusedFirstStaysUnconfigured(s: State)
    requires Reachable(s) && s.worker.Concluding? && !s.worker.applied && s.bootSsid == "" && s.cfg == BOOT_TAG
    ensures var t := Apply(Apply(s, Conclude), Publish);
            && t.staState == Unconfigured && !t.configured && t.outcome == Failed && t.worker == Waiting
            && t.connects == 0 && t.link == Idle
  {
    ReachableInv(s);
    ReachableStep(s, Conclude);
    ReachableInv(Apply(s, Conclude));
    ReachableStep(Apply(s, Conclude), Publish);
    ReachableInv(Apply(Apply(s, Conclude), Publish));
  }

  /** Twenty refusals in a row make an outcome of "failed", and nineteen do not. */
  lemma {:induction false} RefusedTwentyTimes(s: State, c: Creds, n: nat) returns (t: State)
    requires s.worker == Applying(c, 0) && s.events == [] && n <= 20
    ensures Runs(s, seq(n, _ => TryApply(false)), t)
    ensures t.worker == if n < 20 then Applying(c, n) else Concluding(c, false)
    ensures t.events == [] && t.cfg == s.cfg && t.ssid == s.ssid
  {
    if n == 0 {
      t := s;
    } else {
      var u := RefusedTwentyTimes(s, c, n - 1);
      RunsThenStep(s, seq(n - 1, _ => TryApply(false)), u, TryApply(false));
      t := Apply(u, TryApply(false));
      assert seq(n - 1, _ => TryApply(false)) + [TryApply(false)] == seq(n, _ => TryApply(false));
    }
  }

  /** A display of an attempt, of a wait for the timer, or of a connection is one. */
  lemma DisplayIsTruthful(s: State)
    requires Reachable(s)
    ensures s.link.Trying? ==> s.staState == Connecting
    ensures s.timer.Some? ==> s.staState == Disconnected
    ensures s.staState == Connected && s.events == [] ==> s.link.Up? && s.retryCount == 0
  {
    ReachableInv(s);
  }

  // ---- Submissions ------------------------------------------------------------------------

  /** The newest submission is never lost: it is in the mailbox, in the worker's hands, or published. */
  lemma NewestIsNeverLost(s: State)
    requires Reachable(s)
    ensures || (s.mailbox.Some? && s.mailbox.value.issue == s.issued)
            || (InHand(s).Some? && InHand(s).value.issue == s.issued)
            || s.published == s.issued
  {
    ReachableInv(s);
  }

  /** What has been published is a strictly increasing selection of what was submitted, and reads so by
      serial comparison. */
  lemma PublishedIdsIncrease(s: State, i: nat, j: nat)
    requires Reachable(s) && i < j < |s.history|
    ensures 1 <= s.history[i] < s.history[j] <= s.issued
    ensures s.history[j] - s.history[i] <= SerialIds.HALF - 2 ==>
              SerialIds.IsNewer(SerialIds.NthId(s.history[j]), SerialIds.NthId(s.history[i]))
  {
    ReachableInv(s);
    if s.history[j] - s.history[i] <= SerialIds.HALF - 2 {
      SerialIds.NewerMeansLater(s.history[j], s.history[i]);
    }
  }

  /** Whatever is published, or on its way there, goes by the identifier its submitter was given. */
  lemma IdsTravelWithSubmissions(s: State)
    requires Reachable(s)
    ensures s.requestId == SerialIds.NthId(s.published)
    ensures InHand(s).Some? ==> InHand(s).value.requestId == SerialIds.NthId(InHand(s).value.issue)
    ensures s.mailbox.Some? ==> s.mailbox.value.requestId == SerialIds.NthId(s.issued)
  {
    ReachableInv(s);
  }

  /** What is accepted, by the lengths alone: 1 to 31 characters of SSID, and a password of 8 to 63 or
      none. */
  lemma AcceptedByLength(ssid: string, password: string)
    ensures ValidSubmission(ssid, password) <==> 1 <= |ssid| <= 31 && (|password| == 0 || 8 <= |password| <= 63)
  {
  }

  /** Every accepted submission passes the driver's length checks, so that only the driver can refuse it. */
  lemma AcceptedFitsDriver(s: State)
    requires Reachable(s) && s.worker.Applying?
    ensures FitsDriver(s.worker.creds)
    ensures Enabled(s, TryApply(true)) ==> Apply(s, TryApply(true)).cfg == s.worker.creds.issue
  {
    ReachableInv(s);
  }

  // ---- Reconnection -----------------------------------------------------------------------

  /** The station never gives up: configured, not reconfiguring and not connected, it is trying, waiting
      for its timer, about to be connected by the worker, or has an event to handle; and that event is
      the address that makes it connected, or in the end a loss whose handling will make it try. */
  lemma NeverGivesUp(s: State)
    requires Reachable(s) && s.configured && !s.reconfiguring && s.staState != Connected
    ensures s.link.Trying? || s.timer.Some? || s.worker.Reconnecting? || s.events != []
    ensures s.events == [] && !s.worker.Reconnecting? && s.timer.None? ==> s.link == Trying(s.cfg)
    ensures s.link.Up? ==> s.events == [GotIp]
    ensures s.link.Idle? && s.timer.None? && !s.worker.Reconnecting? ==>
              && s.events != [] && s.events[|s.events| - 1].Lost?
              && s.events[|s.events| - 1].reason != ASSOC_LEAVE
  {
    ReachableInv(s);
  }

  /** And handling that loss, when its turn comes, does start an attempt or arm the timer. */
  lemma PendingLossMakesItTry(s: State)
    requires Reachable(s) && s.configured && !s.reconfiguring && s.staState != Connected
    requires s.link.Idle? && s.timer.None? && !s.worker.Reconnecting? && |s.events| == 1
    ensures var t := Apply(s, HandleEvent); t.link.Trying? || t.timer.Some?
  {
    NeverGivesUp(s);
    LossLeadsToRetryExactly(s.(events := s.events[1..]), s.events[0].reason);
  }

  /** Handling the loss of a connection starts the next attempt or arms the timer, exactly when the loss
      is not reported as the station's own leave. */
  lemma LossLeadsToRetryExactly(s: State, reason: nat)
    requires s.configured && !s.reconfiguring && s.link.Idle? && s.timer.None?
    ensures var t := HandleLost(s, reason); (t.link.Trying? || t.timer.Some?) <==> reason != ASSOC_LEAVE
  {
  }

  /** Should an access point make the driver report reason 8 of itself, the station is stranded: nothing
      but a new submission can happen to it. */
  lemma ForeignLeaveStrands(ssid: string)
    requires ssid != ""
    ensures exists s :: Reachable(s) && s.link.Up? && s.events == []
                        && Stranded(HandleLost(Dropped(s, ASSOC_LEAVE).(events := []), ASSOC_LEAVE))
  {
    var s0 := BootState(ssid);
    var s1 := Apply(s0, LinkComesUp);
    var s2 := Apply(s1, HandleEvent);
    assert Runs(s2, [], s2);
    assert [HandleEvent][1..] == [];
    assert Runs(s1, [HandleEvent], s2);
    assert [LinkComesUp, HandleEvent][1..] == [HandleEvent];
    assert Runs(s0, [LinkComesUp, HandleEvent], s2);
    assert Reachable(s2);
    assert Stranded(HandleLost(Dropped(s2, ASSOC_LEAVE).(events := []), ASSOC_LEAVE));
  }

  ghost predicate Stranded(s: State) {
    s.configured && s.staState == Disconnected && forall a :: Enabled(s, a) ==> a.Submit?
  }

  /** Every connect issued, whether or not the driver would heed it, is issued while the worker does not
      reconfigure and the link is down; so it always starts an attempt, with the present credentials. */
  lemma NoConnectWhileReconfiguring(s: State, a: Action)
    requires Reachable(s) && Enabled(s, a) && Apply(s, a).connects != s.connects
    ensures !s.reconfiguring && s.configured && s.link.Idle?
    ensures Apply(s, a).connects == s.connects + 1 && Apply(s, a).link == Trying(s.cfg)
  {
    OnlyThreeConnect(s, a);
    ReachableInv(s);
  }

  lemma {:induction false} OnlyThreeConnect(s: State, a: Action)
    requires Enabled(s, a) && Apply(s, a).connects != s.connects
    ensures || a.Reconnect?
            || (a.TimerFires? && !s.reconfiguring && s.configured)
            || (a.HandleEvent? && s.events[0].Lost? && !s.reconfiguring && s.configured)
    ensures Apply(s, a).connects == s.connects + 1
    ensures Apply(s, a).link == if s.link.Idle? then Trying(s.cfg) else s.link
  {
  }

  /** And nothing else starts one. */
  lemma AttemptsAreConnects(s: State, a: Action)
    requires Enabled(s, a) && !s.link.Trying? && Apply(s, a).link.Trying?
    ensures Apply(s, a).connects == s.connects + 1
  {
  }

  lemma TimerOffWhileConnected(s: State)
    requires Reachable(s) && s.timer.Some?
    ensures s.staState != Connected && s.link.Idle?
  {
    ReachableInv(s);
  }

  /** A handled loss that asks for a retry makes one: it is counted, and the attempt is made at once
      for the first three, and otherwise after min(5 s * 2^(n - 3), 60 s). */
  lemma RetryExactly(s: State)
    requires Reachable(s) && s.events != [] && s.events[0].Lost? && s.events[0].reason != ASSOC_LEAVE
    requires s.configured && !s.reconfiguring
    ensures var t := Apply(s, HandleEvent);
            && t.retryCount == (s.retryCount + 1) % RETRY_RANGE
            && (s.retryCount < 3 ==> t.link == Trying(s.cfg) && t.staState == Connecting && t.timer == None)
            && (s.retryCount >= 3 ==> t.link == Idle && t.staState == Disconnected
                                      && t.timer == Some(RetryBackoff.RetryDelay(s.retryCount)))
  {
    ReachableInv(s);
    RetryBackoff.DelayMonotone(s.retryCount, s.retryCount);
  }

  /** Each armed delay is the schedule's for the attempt number at hand. */
  lemma ArmedDelayExactly(s: State, a: Action)
    requires Enabled(s, a) && Apply(s, a).timer.Some? && Apply(s, a).timer != s.timer
    ensures s.retryCount >= RetryBackoff.FAST_RETRIES
    ensures Apply(s, a).timer.value == RetryBackoff.RetryDelay(s.retryCount)
    ensures Apply(s, a).retryCount == (s.retryCount + 1) % RETRY_RANGE
  {
    RetryBackoff.DelayMonotone(s.retryCount, s.retryCount);
  }

  /** The steps that start the schedule over: a connection, or a published submission. */
  predicate Resets(s: State, a: Action) {
    a.Publish? || (a.HandleEvent? && s.events != [] && s.events[0].GotIp?)
  }

  ghost predicate RunsWithoutReset(s: State, actions: seq<Action>, t: State)
    decreases |actions|
  {
    if actions == [] then s == t
    else Enabled(s, actions[0]) && !Resets(s, actions[0]) && RunsWithoutReset(Apply(s, actions[0]), actions[1..], t)
  }

  lemma AttemptsOnlyCountUp(s: State, a: Action)
    requires Enabled(s, a) && !Resets(s, a) && s.retryCount + 1 < RETRY_RANGE
    ensures s.retryCount <= Apply(s, a).retryCount <= s.retryCount + 1
  {
    assert s.retryCount % RETRY_RANGE == s.retryCount && (s.retryCount + 1) % RETRY_RANGE == s.retryCount + 1;
  }

  lemma {:induction false} AttemptsGrow(s: State, actions: seq<Action>, t: State)
    requires Inv(s) && RunsWithoutReset(s, actions, t)
    requires s.retryCount + |actions| < RETRY_RANGE
    ensures Inv(t) && s.retryCount <= t.retryCount
    decreases |actions|
  {
    if actions != [] {
      StepKeepsInv(s, actions[0]);
      AttemptsOnlyCountUp(s, actions[0]);
      AttemptsGrow(Apply(s, actions[0]), actions[1..], t);
    }
  }

  /** Until the schedule starts over, armed delays never shrink (short of 2^32 attempts). */
  lemma DelaysNeverShrink(s: State, actions: seq<Action>, t: State)
    requires Reachable(s) && RunsWithoutReset(s, actions, t)
    requires s.retryCount + |actions| < RETRY_RANGE
    ensures s.timer.Some? && t.timer.Some? && s.retryCount > 0 ==> s.timer.value <= t.timer.value
  {
    ReachableInv(s);
    AttemptsGrow(s, actions, t);
    LaterDelayIsLonger(s, t);
  }

  lemma LaterDelayIsLonger(s: State, t: State)
    requires TimerInv(s) && TimerInv(t) && s.retryCount <= t.retryCount
    ensures s.timer.Some? && t.timer.Some? && s.retryCount > 0 ==> s.timer.value <= t.timer.value
  {
    if s.timer.Some? && t.timer.Some? && s.retryCount > 0 {
      assert (s.retryCount + RETRY_RANGE - 1) % RETRY_RANGE == s.retryCount - 1;
      assert (t.retryCount + RETRY_RANGE - 1) % RETRY_RANGE == t.retryCount - 1;
      RetryBackoff.DelayMonotone(s.retryCount - 1, t.retryCount - 1);
    }
  }
}
