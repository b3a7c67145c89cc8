/** Reboot correlation across boots: what a boot reports as the run that rebooted the board. */
module RebootChain {
  import opened Options
  import opened RunProtocol
  import opened RunInvariant
  import opened RunTheorems
  import RunIdentity

  // One boot session: how it was entered, what the retained memory held, and how it went.
  datatype Session = Session(nonce: RunIdentity.U32, softwareReset: bool, rtc: Marker, actions: seq<Action>, end: State)
  {
    function Start(): State {
      BootState(nonce, softwareReset, rtc)
    }
  }

  /** The restart in the workload task is the only software reset, and such a reset keeps the retained
      memory. After any other reset that memory may hold anything. */
  ghost predicate Boots(ss: seq<Session>) {
    && (forall i :: 0 <= i < |ss| ==> Runs(ss[i].Start(), ss[i].actions, ss[i].end))
    && (ss != [] ==> !ss[0].softwareReset)
    && (forall i :: 0 < i < |ss| && ss[i].softwareReset ==>
          ss[i - 1].end.restarting && ss[i].rtc == ss[i - 1].end.marker)
  }

  /** The previous run id of a session, as its status and its boot events give it from start to end. */
  lemma {:induction false} PreviousStays(s: State, actions: seq<Action>, t: State)
    requires Runs(s, actions, t)
    ensures t.previous == s.previous
    decreases |actions|
  {
    if actions != [] {
      PreviousStays(Apply(s, actions[0]), actions[1..], t);
    }
  }

  lemma EndIsReachable(x: Session)
    requires Runs(x.Start(), x.actions, x.end)
    ensures Reachable(x.end) && x.end.nonce == x.nonce
  {
    NonceStays(x.Start(), x.actions, x.end);
  }

  lemma {:induction false} NonceStays(s: State, actions: seq<Action>, t: State)
    requires Runs(s, actions, t)
    ensures t.nonce == s.nonce
    decreases |actions|
  {
    if actions != [] {
      NonceStays(Apply(s, actions[0]), actions[1..], t);
    }
  }

  /** A boot reports a previous run exactly when it followed a software restart, and then it names a
      controlled-reboot run of the session just before that had waited its full duration. */
  lemma ReportNamesPrecedingRun(ss: seq<Session>, i: nat)
    requires Boots(ss) && i < |ss|
    ensures ss[i].end.previous.Some? <==> ss[i].softwareReset
    ensures ss[i].softwareReset ==>
              && i > 0
              && var before := ss[i - 1].end;
                 ss[i].end.previous == Some(before.marker.runId) && exists n: nat :: MarkedRun(before, n)
  {
    PreviousStays(ss[i].Start(), ss[i].actions, ss[i].end);
    if ss[i].softwareReset {
      EndIsReachable(ss[i - 1]);
      ReachableInv(ss[i - 1].end);
      MarkerNamesWaitedRun(ss[i - 1].end);
    }
  }

  /** A run is reported in at most one boot, as long as no boot nonce repeats. */
  lemma ReportedOnce(ss: seq<Session>, i: nat, j: nat)
    requires Boots(ss) && i < j < |ss|
    requires forall a, b :: 0 <= a < b < |ss| ==> ss[a].nonce != ss[b].nonce
    ensures ss[i].end.previous.Some? ==> ss[i].end.previous != ss[j].end.previous
  {
    ReportNamesPrecedingRun(ss, i);
    ReportNamesPrecedingRun(ss, j);
    if ss[i].softwareReset && ss[j].softwareReset {
      EndIsReachable(ss[i - 1]);
      EndIsReachable(ss[j - 1]);
      var m: nat :| MarkedRun(ss[i - 1].end, m);
      var n: nat :| MarkedRun(ss[j - 1].end, n);
      RunIdentity.RunIdFitsAndIdentifies(ss[i - 1].nonce, (m + 1) % RunIdentity.COUNTER_RANGE,
                                         ss[j - 1].nonce, (n + 1) % RunIdentity.COUNTER_RANGE);
      assert ss[i - 1].nonce != ss[j - 1].nonce;
    }
  }
}
