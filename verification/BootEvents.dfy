/** The boot task's events: which they are, in which order, what they carry, and that they come first. */
module BootEvents {
  import opened Options
  import opened RunRecord
  import opened RunProtocol
  import opened RunTheorems
  import opened RebootChain

  /** The events the boot task has put in the ring, oldest first. */
  function BootLabels(log: Log): seq<Label> {
    match log
    case Nil => []
    case Snoc(h, Committed(src, e)) => if src == BootTask then BootLabels(h) + [e.body] else BootLabels(h)
    case Snoc(h, _) => BootLabels(h)
  }

  /** What a boot emits, each event naming the run that rebooted the board, if one did. */
  function BootScript(previousId: string): seq<Label> {
    [Label(BootEvent, previousId, NoVerdict), Label(ResetReason, previousId, NoVerdict), Label(Ready, previousId, NoVerdict)]
  }

  /** How many of them are in the ring. */
  function Emitted(boot: BootPc): nat {
    match boot
    case BootNumbering(k) => if k == BootEvent then 0 else if k == ResetReason then 1 else 2
    case BootCommitting(k, _) => if k == BootEvent then 0 else if k == ResetReason then 1 else 2
    case StartingHttp => 2
    case BootDone => 3
  }

  predicate BootKindInv(s: State) {
    (s.boot.BootNumbering? || s.boot.BootCommitting?) ==> s.boot.kind in {BootEvent, ResetReason, Ready}
  }

  predicate BootInvariant(s: State) {
    && BootKindInv(s)
    && BootLabels(s.log) == BootScript(s.PreviousId())[..Emitted(s.boot)]
    && (s.issued != [] ==> Emitted(s.boot) >= 2 && s.boot != StartingHttp)
    && (s.issued == [] ==> s.workers.Keys == {})
    && FirstAreBoots(s)
  }

  /** The ring begins with the boot's first two events. */
  predicate FirstAreBoots(s: State) {
    && (Emitted(s.boot) < 2 ==> |Commits(s.log)| == Emitted(s.boot))
    && (Emitted(s.boot) >= 2 ==> |Commits(s.log)| >= 2)
    && (|Commits(s.log)| > 0 ==> Commits(s.log)[0].body == BootScript(s.PreviousId())[0])
    && (|Commits(s.log)| > 1 ==> Commits(s.log)[1].body == BootScript(s.PreviousId())[1])
  }

  lemma {:induction false} BootTaskKeeps(s: State, a: Action)
    requires BootInvariant(s) && Enabled(s, a) && a.BootStep?
    ensures BootInvariant(Apply(s, a))
  {
    var t := Apply(s, a);
    assert t.(boot := s.boot, seqNo := s.seqNo, log := s.log) == s && t.PreviousId() == s.PreviousId();
    if s.boot.BootCommitting? {
      var e := t.log.last.event;
      assert e.body == BootScript(s.PreviousId())[Emitted(s.boot)];
      assert Commits(t.log) == Commits(s.log) + [e] && BootLabels(t.log) == BootLabels(s.log) + [e.body];
      var n := Emitted(s.boot);
      assert BootScript(s.PreviousId())[..n] + [BootScript(s.PreviousId())[n]] == BootScript(s.PreviousId())[..n + 1];
    }
  }

  /** What any other step does to these. */
  lemma {:induction false} OthersKeepBoot(s: State, a: Action)
    requires Enabled(s, a) && !a.BootStep?
    ensures var t := Apply(s, a);
            && t.boot == s.boot && t.previous == s.previous && BootLabels(t.log) == BootLabels(s.log)
            && (t.issued == s.issued || (a.Admit? && |t.issued| > 0))
            && (Commits(t.log) == Commits(s.log)
                || (a.CommitEvent? && t.log.Snoc? && t.log.last.Committed?
                    && Commits(t.log) == Commits(s.log) + [t.log.last.event]))
            && (t.workers.Keys == s.workers.Keys || s.issued != [])
  {
  }

  lemma {:induction false} StepKeepsBoot(s: State, a: Action)
    requires BootInvariant(s) && Enabled(s, a)
    ensures BootInvariant(Apply(s, a))
  {
    if a.BootStep? {
      BootTaskKeeps(s, a);
    } else {
      OthersKeepBoot(s, a);
      if a.CommitEvent? { assert a.n in s.workers.Keys; }
    }
  }

  lemma {:induction false} RunsKeepBoot(s: State, actions: seq<Action>, t: State)
    requires BootInvariant(s) && Runs(s, actions, t)
    ensures BootInvariant(t)
    decreases |actions|
  {
    if actions != [] {
      StepKeepsBoot(s, actions[0]);
      RunsKeepBoot(Apply(s, actions[0]), actions[1..], t);
    }
  }

  lemma ReachableBoot(s: State)
    requires Reachable(s)
    ensures BootInvariant(s)
  {
    var softwareReset, rtc, actions :| Runs(BootState(s.nonce, softwareReset, rtc), actions, s);
    RunsKeepBoot(BootState(s.nonce, softwareReset, rtc), actions, s);
  }

  /** The boot task emits "boot", "reset_reason" and "ready", in this order, each naming the run that was
      found to have rebooted the board, if one was; it is done when all three are in the ring. */
  lemma BootEventsExactly(s: State)
    requires Reachable(s)
    ensures s.previous.Some? ==> BootLabels(s.log) <= BootScript(s.previous.value)
    ensures s.previous.None? ==> BootLabels(s.log) <= BootScript("")
    ensures s.boot.BootDone? <==> |BootLabels(s.log)| == 3
  {
    ReachableBoot(s);
  }

  /** So in the session after a software restart they name the run that left the marker. */
  lemma BootEventsNamePrecedingRun(ss: seq<Session>, i: nat)
    requires Boots(ss) && i < |ss| && ss[i].softwareReset
    ensures i > 0 && BootLabels(ss[i].end.log) <= BootScript(ss[i - 1].end.marker.runId)
  {
    ReportNamesPrecedingRun(ss, i);
    EndIsReachable(ss[i]);
    BootEventsExactly(ss[i].end);
  }

  /** And the first two come first in the ring: no run is admitted, and no event of one emitted, before. */
  lemma BootComesFirst(s: State)
    requires Reachable(s)
    ensures s.issued != [] ==> |Commits(s.log)| >= 2
    ensures |Commits(s.log)| > 0 ==> Commits(s.log)[0].body.kind == BootEvent
    ensures |Commits(s.log)| > 1 ==> Commits(s.log)[1].body.kind == ResetReason
  {
    ReachableBoot(s);
  }
}
