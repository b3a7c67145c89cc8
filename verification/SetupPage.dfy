/** The setup page's decision about the submission it is waiting for, on each status response. */
module SetupPage {
  import opened Options
  import opened StationProtocol
  import SerialIds

  const UINT32_RANGE := 0x1_0000_0000

  // The network part of a status response, as far as the page looks at it.
  datatype StatusView = StatusView(staState: StaState, ssid: string, requestId: SerialIds.U32,
                                   outcome: Outcome, lastReason: nat)

  // The submission the page waits for, as the handler's response named it.
  datatype Pending = Pending(id: SerialIds.U32, ssid: string)

  datatype Message =
    | Silent
    | Replaced
    | CouldNotApply
    | ConnectedTo(ssid: string)
    | NotYet(ssid: string, reason: nat)

  function ViewOf(s: State): StatusView {
    StatusView(s.staState, s.ssid, s.requestId, s.outcome, s.lastReason)
  }

  /** The script's comparison: the difference of two numbers, taken to an unsigned 32-bit value. */
  predicate RequestIdNewer(candidate: SerialIds.U32, reference: SerialIds.U32) {
    var difference := candidate - reference;
    var distance := if difference < 0 then difference + UINT32_RANGE else difference;
    distance != 0 && distance < 0x8000_0000
  }

  /** The page's script and the firmware agree on which identifier is newer. */
  lemma PageAgreesWithFirmware(a: SerialIds.U32, b: SerialIds.U32)
    ensures RequestIdNewer(a, b) <==> SerialIds.IsNewer(a, b)
  {
    if a >= b {
      assert (a - b) % SerialIds.MODULUS == a - b;
    } else {
      assert (a - b) % SerialIds.MODULUS == a - b + SerialIds.MODULUS;
    }
  }

  /** What a response makes of a pending submission: what to say, and whether to go on waiting. */
  function Judged(p: Pending, n: StatusView): (Message, bool) {
    if n.requestId != p.id then
      if RequestIdNewer(n.requestId, p.id) then (Replaced, false) else (Silent, true)
    else if n.outcome == Failed then (CouldNotApply, false)
    else if n.staState == Connected && n.ssid == p.ssid then (ConnectedTo(p.ssid), false)
    else if n.lastReason != 0 && n.lastReason != ASSOC_LEAVE then (NotYet(p.ssid, n.lastReason), true)
    else (Silent, true)
  }

  class SetupPage {
    var pending: Option<Pending>
    var message: Message

    constructor ()
      ensures pending == None && message == Silent
    {
      pending, message := None, Silent;
    }

    /** The handler's answer to a submission: accepted ones are waited for. */
    method Submitted(ok: bool, id: SerialIds.U32, ssid: string)
      modifies this
      ensures pending == if ok then Some(Pending(id, ssid)) else None
    {
      message := Silent;
      if ok {
        pending := Some(Pending(id, ssid));
      } else {
        pending := None;
      }
    }

    /** A status response; without a pending submission the message stays as it is. */
    method Render(n: StatusView)
      modifies this
      ensures old(pending).None? ==> pending == None && message == old(message)
      ensures old(pending).Some? ==>
                var (said, waiting) := Judged(old(pending).value, n);
                && pending == (if waiting then old(pending) else None)
                && message == (if said == Silent then old(message) else said)
    {
      var connected := n.staState == Connected;
      if pending.None? { return; }
      var p := pending.value;
      if n.requestId != p.id {
        if RequestIdNewer(n.requestId, p.id) {
          message := Replaced;
          pending := None;
        }
        return;
      }
      if n.outcome == Failed {
        message := CouldNotApply;
        pending := None;
      } else if connected && n.ssid == p.ssid {
        message := ConnectedTo(p.ssid);
        pending := None;
      } else if n.lastReason != 0 && n.lastReason != ASSOC_LEAVE {
        message := NotYet(p.ssid, n.lastReason);
      }
    }
  }
}
