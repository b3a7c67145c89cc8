/** The waiting workloads' body: a loop that polls the clock and the abort flag until either ends it.
    Clock and flag are given by what the loop's k-th turn reads. */
module PollingWait {
  import opened RunRecord
  import opened RunProtocol

  /** wait_abortable, and how many turns went round; the clock reaches the deadline some time. */
  method WaitAbortable(entered: nat, durationMs: nat, clock: nat -> nat, aborted: nat -> bool, ghost late: nat)
    returns (ok: bool, turns: nat)
    requires clock(late) >= entered + durationMs
    ensures turns <= late && forall k :: 0 <= k < turns ==> clock(k) < entered + durationMs && !aborted(k)
    ensures ok <==> clock(turns) >= entered + durationMs
    ensures !ok ==> aborted(turns)
  {
    var deadline := entered + durationMs;
    turns := 0;
    while clock(turns) < deadline
      invariant turns <= late && forall k :: 0 <= k < turns ==> clock(k) < deadline && !aborted(k)
      decreases late - turns
    {
      if aborted(turns) { return false, turns; }
      turns := turns + 1;
    }
    ok := true;
  }

  /** The protocol lets a waiting body end with either result of this loop, in any state that is no
      earlier than its last look at the clock and has the abort it saw. */
  lemma OutcomesAreEnabled(s: State, n: nat, clock: nat -> nat, aborted: nat -> bool, ok: bool, turns: nat)
    requires !s.restarting && At(s, n, InBody) && s.workers[n].run.request.workload.Waits()
    requires ok <==> clock(turns) >= s.workers[n].enteredAt + s.workers[n].run.request.durationMs
    requires s.now >= clock(turns) && (!ok ==> aborted(turns) && s.cur.abortRequested)
    ensures Enabled(s, EndBody(n, ok))
  {
  }
}
