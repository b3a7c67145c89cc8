/** Telling a device that has come back from one that has not gone yet: the reset instant, the offline
    scan of recorded heartbeats and the online poll. */
module Recovery {
  import opened Options

  // A status response; the boot session it was made in is not in it, but the statements below need it.
  datatype Status = Status(uptimeMs: Option<nat>, resetReason: string, connected: bool, session: nat)

  // A recorded heartbeat: when, and the status unless the request failed.
  datatype Heartbeat = Heartbeat(t: real, status: Option<Status>)

  datatype Mark = Mark(t: real, banner: bool, bootEvent: bool)

  /** A response that may still be the old session's. */
  predicate Stale(before: Option<nat>, s: Status) {
    before.Some? && s.uptimeMs.Some? && s.uptimeMs.value >= before.value
  }

  // ---- The reset instant ------------------------------------------------------------------

  /** The first ROM banner marks the reset; failing that, the firmware's first boot event. */
  method FindResetInstant(lines: seq<Mark>) returns (reset: Option<real>)
    ensures reset.None? <==> forall i :: 0 <= i < |lines| ==> !lines[i].banner && !lines[i].bootEvent
    ensures reset.Some? ==>
              exists i :: && 0 <= i < |lines| && reset.value == lines[i].t
                          && if exists j :: 0 <= j < |lines| && lines[j].banner
                             then lines[i].banner && forall j :: 0 <= j < i ==> !lines[j].banner
                             else lines[i].bootEvent && forall j :: 0 <= j < i ==> !lines[j].bootEvent
  {
    var i := 0;
    while i < |lines|
      invariant 0 <= i <= |lines|
      invariant forall j :: 0 <= j < i ==> !lines[j].banner
    {
      if lines[i].banner {
        return Some(lines[i].t);
      }
      i := i + 1;
    }
    i := 0;
    while i < |lines|
      invariant 0 <= i <= |lines|
      invariant forall j :: 0 <= j < i ==> !lines[j].bootEvent
    {
      if lines[i].bootEvent {
        return Some(lines[i].t);
      }
      i := i + 1;
    }
    return None;
  }

  // ---- The offline scan -------------------------------------------------------------------

  /** The heartbeat that set the baseline before record i: the last one answered before the reset. */
  function BaselineAt(hs: seq<Heartbeat>, reset: real, i: nat): (b: Option<nat>)
    requires i <= |hs|
    ensures b.Some? ==> b.value < i && hs[b.value].status.Some? && hs[b.value].t < reset
    ensures forall j :: 0 <= j < i && hs[j].status.Some? && hs[j].t < reset ==> b.Some? && j <= b.value
  {
    if i == 0 then None
    else if hs[i - 1].status.Some? && hs[i - 1].t < reset then Some(i - 1)
    else BaselineAt(hs, reset, i - 1)
  }

  function Baseline(hs: seq<Heartbeat>, reset: real, i: nat): Option<nat>
    requires i <= |hs|
  {
    var b := BaselineAt(hs, reset, i);
    if b.Some? then hs[b.value].status.value.uptimeMs else None
  }

  /** Record i counts as recovered: answered, not before the reset, and not stale. */
  predicate Acceptable(hs: seq<Heartbeat>, reset: real, i: nat)
    requires i < |hs|
  {
    && hs[i].status.Some?
    && hs[i].t >= reset
    && !Stale(Baseline(hs, reset, i), hs[i].status.value)
  }

  datatype Outcome = NotRecovered | Recovered(index: nat, resetReason: string, connected: bool, afterS: real)

  /** The scan: accepts the first acceptable heartbeat at or after the reset instant. */
  method ScanForRecovery(hs: seq<Heartbeat>, reset: Option<real>) returns (found: Outcome)
    ensures reset.None? ==> found == NotRecovered
    ensures reset.Some? && found.NotRecovered? ==> forall i :: 0 <= i < |hs| ==> !Acceptable(hs, reset.value, i)
    ensures found.Recovered? ==>
              && reset.Some? && found.index < |hs|
              && Acceptable(hs, reset.value, found.index)
              && (forall i :: 0 <= i < found.index ==> !Acceptable(hs, reset.value, i))
              && found.resetReason == hs[found.index].status.value.resetReason
              && found.connected == hs[found.index].status.value.connected
              && found.afterS == hs[found.index].t - reset.value >= 0.0
  {
    var uptimeBefore: Option<nat> := None;
    var i := 0;
    while i < |hs|
      invariant 0 <= i <= |hs|
      invariant reset.Some? ==> uptimeBefore == Baseline(hs, reset.value, i)
      invariant reset.Some? ==> forall j :: 0 <= j < i ==> !Acceptable(hs, reset.value, j)
    {
      var h := hs[i];
      i := i + 1;
      if h.status.None? { continue; }
      var st := h.status.value;
      if reset.Some? && h.t < reset.value {
        uptimeBefore := st.uptimeMs;
        continue;
      }
      if reset.Some? && h.t >= reset.value {
        if uptimeBefore.Some? && st.uptimeMs.Some? && st.uptimeMs.value >= uptimeBefore.value {
          continue; // a read of the session from before the reset
        }
        return Recovered(i - 1, st.resetReason, st.connected, h.t - reset.value);
      }
    }
    return NotRecovered;
  }

  /** Uptime never goes back within a boot session, in the order of the record. */
  ghost predicate UptimeGrows(ss: seq<Status>) {
    forall i, j :: 0 <= i < j < |ss| && ss[i].session == ss[j].session && ss[i].uptimeMs.Some? && ss[j].uptimeMs.Some? ==>
      ss[i].uptimeMs.value <= ss[j].uptimeMs.value
  }

  ghost predicate RecordedInOrder(hs: seq<Heartbeat>) {
    forall i, j :: 0 <= i < j < |hs| && hs[i].status.Some? && hs[j].status.Some? ==>
      UptimeGrows([hs[i].status.value, hs[j].status.value])
  }

  /** The offline scan never accepts a sample of the baseline's own session, given both uptimes. */
  lemma ScanNeverAcceptsOldSession(hs: seq<Heartbeat>, reset: real, i: nat)
    requires RecordedInOrder(hs) && i < |hs| && Acceptable(hs, reset, i)
    requires Baseline(hs, reset, i).Some? && hs[i].status.value.uptimeMs.Some?
    ensures hs[i].status.value.session != hs[BaselineAt(hs, reset, i).value].status.value.session
  {
    var b := BaselineAt(hs, reset, i).value;
    var pair := [hs[b].status.value, hs[i].status.value];
    assert UptimeGrows(pair);
    assert pair[0] == hs[b].status.value && pair[1] == hs[i].status.value;
  }

  /** Exactly when it accepts one after all: when either of the two uptimes is missing. */
  lemma ScanAcceptsOldSessionExactly(hs: seq<Heartbeat>, reset: real, i: nat)
    requires RecordedInOrder(hs) && i < |hs| && hs[i].status.Some? && hs[i].t >= reset
    requires BaselineAt(hs, reset, i).Some?
    requires hs[i].status.value.session == hs[BaselineAt(hs, reset, i).value].status.value.session
    ensures Acceptable(hs, reset, i) <==> Baseline(hs, reset, i).None? || hs[i].status.value.uptimeMs.None?
  {
    if Acceptable(hs, reset, i) && Baseline(hs, reset, i).Some? && hs[i].status.value.uptimeMs.Some? {
      ScanNeverAcceptsOldSession(hs, reset, i);
    }
  }

  /** A capture of two answers of one session, before and at the reset instant. */
  function TwoAnswers(reset: real, before: Option<nat>, after: Option<nat>, session: nat): seq<Heartbeat> {
    [Heartbeat(reset - 1.0, Some(Status(before, "", true, session))),
     Heartbeat(reset, Some(Status(after, "", true, session)))]
  }

  /** Both cases happen: with one uptime missing the old session's answer is accepted, with none
      missing it is not. */
  lemma MissingUptimeIsAccepted(reset: real, uptime: nat, session: nat)
    ensures var hs := TwoAnswers(reset, Some(uptime), None, session); RecordedInOrder(hs) && Acceptable(hs, reset, 1)
    ensures var hs := TwoAnswers(reset, None, Some(uptime), session); RecordedInOrder(hs) && Acceptable(hs, reset, 1)
    ensures var hs := TwoAnswers(reset, Some(uptime), Some(uptime), session);
            RecordedInOrder(hs) && !Acceptable(hs, reset, 1)
  {
    assert BaselineAt(TwoAnswers(reset, Some(uptime), None, session), reset, 1) == Some(0);
    assert BaselineAt(TwoAnswers(reset, None, Some(uptime), session), reset, 1) == Some(0);
    assert BaselineAt(TwoAnswers(reset, Some(uptime), Some(uptime), session), reset, 1) == Some(0);
  }

  // ---- The online poll --------------------------------------------------------------------

  datatype Reply = Answer(status: Status) | NoReply

  datatype Polled = Fresh(status: Status, index: nat) | StaleOnly(status: Status) | Silent

  /** The polling loop; the list of replies ends with the deadline. A stale answer is remembered but is
      not recovery. */
  method PollForRecovery(before: Option<nat>, replies: seq<Reply>) returns (polled: Polled)
    ensures polled.Fresh? ==>
              && polled.index < |replies|
              && replies[polled.index] == Answer(polled.status) && !Stale(before, polled.status)
              && forall i :: 0 <= i < polled.index && replies[i].Answer? ==> Stale(before, replies[i].status)
    ensures !polled.Fresh? ==> forall i :: 0 <= i < |replies| && replies[i].Answer? ==> Stale(before, replies[i].status)
    ensures polled.StaleOnly? ==>
              exists i :: 0 <= i < |replies| && replies[i] == Answer(polled.status)
                          && forall j :: i < j < |replies| ==> replies[j].NoReply?
    ensures polled.Silent? <==> forall i :: 0 <= i < |replies| ==> replies[i].NoReply?
  {
    var lastStale: Option<Status> := None;
    ghost var at := 0;
    var i := 0;
    while i < |replies|
      invariant 0 <= i <= |replies|
      invariant forall j :: 0 <= j < i && replies[j].Answer? ==> Stale(before, replies[j].status)
      invariant lastStale.None? ==> forall j :: 0 <= j < i ==> replies[j].NoReply?
      invariant lastStale.Some? ==> 0 <= at < i && replies[at] == Answer(lastStale.value)
                                    && forall j :: at < j < i ==> replies[j].NoReply?
    {
      match replies[i] {
        case NoReply =>
        case Answer(status) =>
          if before.Some? && status.uptimeMs.Some? && status.uptimeMs.value >= before.value {
            lastStale, at := Some(status), i;
          } else {
            return Fresh(status, i);
          }
      }
      i := i + 1;
    }
    if lastStale.Some? {
      return StaleOnly(lastStale.value);
    }
    return Silent;
  }

  /** An answer of the baseline's own session, made after it, is always stale; and an answer counts as
      recovery exactly when an uptime is missing or the device's uptime has gone back. */
  lemma OldSessionIsStale(baseline: Status, answer: Status)
    requires UptimeGrows([baseline, answer]) && baseline.uptimeMs.Some?
    ensures baseline.session == answer.session && answer.uptimeMs.Some? ==> Stale(baseline.uptimeMs, answer)
    ensures !Stale(baseline.uptimeMs, answer) <==>
              answer.uptimeMs.None? || answer.uptimeMs.value < baseline.uptimeMs.value
  {
    var pair := [baseline, answer];
    assert pair[0] == baseline && pair[1] == answer;
  }

  /** So the poll accepts an answer of the baseline's own session exactly when either uptime is missing. */
  lemma PollAcceptsOldSessionExactly(baseline: Status, answer: Status)
    requires UptimeGrows([baseline, answer]) && baseline.session == answer.session
    ensures !Stale(baseline.uptimeMs, answer) <==> baseline.uptimeMs.None? || answer.uptimeMs.None?
  {
    if baseline.uptimeMs.Some? {
      OldSessionIsStale(baseline, answer);
    }
  }
}
