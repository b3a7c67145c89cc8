/** The firmware's station code: the handler, the worker's steps, the event handler and the retry
    timer, each proved to take exactly its step of the station protocol. */
module Station {
  import opened Options
  import opened StationProtocol
  import opened StationInvariant
  import SerialIds
  import RetryBackoff

  /** The one-shot retry timer. */
  class RetryTimer {
    var armed: Option<nat>

    constructor ()
      ensures armed == None
    {
      armed := None;
    }

    method Stop()
      modifies this
      ensures armed == None
    {
      armed := None;
    }

    method StartOnce(delayMs: nat)
      modifies this
      ensures armed == Some(delayMs)
    {
      armed := Some(delayMs);
    }
  }

  /** The Wi-Fi driver as the firmware sees it: its credentials, its link and its event queue. */
  class Radio {
    var cfg: nat
    var link: Link
    ghost var lastUp: nat
    ghost var connects: nat
    var events: seq<WifiEvent>

    constructor (trying: bool)
      ensures cfg == BOOT_TAG && link == (if trying then Trying(BOOT_TAG) else Idle) && lastUp == 0 && events == []
      ensures connects == if trying then 1 else 0
    {
      cfg, link, lastUp, events := BOOT_TAG, if trying then Trying(BOOT_TAG) else Idle, 0, [];
      connects := if trying then 1 else 0;
    }

    method Connect()
      modifies this`link, this`connects
      ensures link == (if old(link).Idle? then Trying(cfg) else old(link)) && connects == old(connects) + 1
    {
      connects := connects + 1;
      if link == Idle {
        link := Trying(cfg);
      }
    }

    method Disconnect()
      modifies this`link, this`events
      ensures link == Idle
      ensures events == if old(link).Idle? then old(events) else old(events) + [Lost(ASSOC_LEAVE)]
    {
      if link != Idle {
        Drop(ASSOC_LEAVE);
      }
    }

    method ComeUp()
      requires link.Trying?
      modifies this`link, this`lastUp, this`events
      ensures link == Up(old(link).tag) && lastUp == old(link).tag && events == old(events) + [GotIp]
    {
      lastUp := link.tag;
      link := Up(link.tag);
      events := events + [GotIp];
    }

    method Drop(reason: nat)
      requires !link.Idle?
      modifies this`link, this`events
      ensures link == Idle && events == old(events) + [Lost(reason)]
    {
      link := Idle;
      events := events + [Lost(reason)];
    }

    method SetConfig(tag: nat, driverOk: bool) returns (ok: bool)
      modifies this`cfg
      ensures ok == driverOk && cfg == if ok then tag else old(cfg)
    {
      if driverOk {
        cfg := tag;
      }
      return driverOk;
    }
  }

  class Station {
    const radio: Radio
    const timer: RetryTimer
    var requestCounter: SerialIds.U32
    var mailbox: Option<Creds>
    var configRequestId: SerialIds.U32
    var configResult: Outcome
    var staState: StaState
    var staConfigured: bool
    var reconfiguring: bool
    var retryCount: nat
    var lastReason: nat
    var staSsid: string
    // The worker's place in its loop, with the credentials it holds.
    var worker: WorkerPc
    // The unbounded count that the 32-bit request counter stands for: the tag of the submissions.
    var issued: nat
    // The submission published last, and all of them.
    ghost var published: nat
    ghost var history: seq<nat>
    // The network stored at boot, and all submissions made.
    const bootSsid: string
    ghost var submitted: seq<Creds>

    ghost function View(): State
      reads this, radio, timer
    {
      State(issued, mailbox, worker, published, configRequestId, configResult, staState, staConfigured, reconfiguring,
            retryCount, lastReason, staSsid, timer.armed, radio.connects, radio.cfg, radio.link, radio.lastUp, radio.events, history,
            bootSsid, submitted)
    }

    /** The counters are 32 bits wide, and the request counter is that of the submissions made. */
    ghost predicate InRange()
      reads this
    {
      retryCount < RETRY_RANGE && requestCounter == SerialIds.NthId(issued)
    }

    /** The variables are those of a reachable protocol state. */
    ghost predicate Valid()
      reads this, radio, timer
    {
      InRange() && Reachable(View())
    }

    /** Up to the first connection attempt. */
    constructor (ssid: string)
      ensures Valid() && View() == BootState(ssid) && fresh(radio) && fresh(timer)
    {
      assert Runs(BootState(ssid), [], BootState(ssid));
      radio := new Radio(ssid != "");
      timer := new RetryTimer();
      requestCounter, mailbox, configRequestId, configResult := 0, None, 0, NothingYet;
      staConfigured := ssid != "";
      staState := if ssid != "" then Connecting else Unconfigured;
      reconfiguring, retryCount, lastReason, staSsid, worker := false, 0, 0, ssid, Waiting;
      issued, published, history, bootSsid, submitted := 0, 0, [], ssid, [];
    }

    /** network_sta_post: numbers an acceptable submission and leaves it in the one-slot mailbox. */
    method NetworkStaPost(ssid: string, password: string) returns (accepted: bool, requestId: SerialIds.U32)
      requires Valid()
      modifies this`requestCounter, this`mailbox, this`issued, this`submitted
      ensures Valid()
      ensures accepted <==> ValidSubmission(ssid, password)
      ensures !accepted ==> View() == old(View())
      ensures accepted ==> View() == Apply(old(View()), Submit(ssid, password)) && requestId == SerialIds.NthId(issued)
    {
      if ssid == "" || |ssid| >= 32 || (password != "" && |password| < 8) || |password| >= 64 {
        return false, 0;
      }
      ReachableStep(View(), Submit(ssid, password));
      Enqueue(ssid, password);
      return true, requestCounter;
    }

    /** The next identifier, and the mailbox overwritten. */
    method Enqueue(ssid: string, password: string)
      requires InRange() && ValidSubmission(ssid, password)
      modifies this`requestCounter, this`mailbox, this`issued, this`submitted
      ensures InRange() && View() == Apply(old(View()), Submit(ssid, password))
    {
      requestCounter := SerialIds.Next(requestCounter);
      issued := issued + 1;
      mailbox := Some(Creds(issued, requestCounter, ssid, password));
      submitted := submitted + [mailbox.value];
    }

    /** sta_schedule_retry. */
    method ScheduleRetryStep()
      requires InRange()
      modifies this`retryCount, this`staState, radio`link, radio`connects, timer
      ensures InRange() && View() == ScheduleRetry(old(View()))
    {
      var delay := RetryBackoff.RetryDelayMs(retryCount);
      retryCount := (retryCount + 1) % RETRY_RANGE;
      if delay == 0 {
        staState := Connecting;
        radio.Connect();
        return;
      }
      timer.Stop();
      timer.StartOnce(delay);
    }

    /** sta_retry_fire. */
    method RetryFire()
      requires Valid() && timer.armed.Some?
      modifies this`staState, radio`link, radio`connects, timer
      ensures Valid() && View() == Apply(old(View()), TimerFires)
    {
      ReachableStep(View(), TimerFires);
      timer.Stop(); // a one-shot timer is spent when it fires
      ConnectIfConfigured();
    }

    method ConnectIfConfigured()
      modifies this`staState, radio`link, radio`connects
      ensures View() == if reconfiguring || !staConfigured then old(View())
                        else Connect(old(View()).(staState := Connecting))
    {
      if reconfiguring || !staConfigured { return; }
      staState := Connecting;
      radio.Connect();
    }

    /** wifi_event, for the oldest event of the station. */
    method WifiEventStep()
      requires Valid() && radio.events != []
      modifies this`staState, this`lastReason, this`retryCount, radio`events, radio`link, radio`connects, timer
      ensures Valid() && View() == Apply(old(View()), HandleEvent)
    {
      ReachableStep(View(), HandleEvent);
      var event := radio.events[0];
      radio.events := radio.events[1..];
      match event {
        case Lost(reason) =>
          lastReason := reason;
          staState := Disconnected;
          if reason == ASSOC_LEAVE || reconfiguring || !staConfigured { return; }
          ScheduleRetryStep();
        case GotIp =>
          staState := Connected;
          timer.Stop();
          retryCount := 0;
      }
    }

    /** The driver's own doings: a link comes up, an attempt fails, a link drops. */
    method DriverStep(a: Action)
      requires Valid() && Enabled(View(), a) && (a.LinkComesUp? || a.AttemptFails? || a.LinkDrops?)
      modifies radio`link, radio`lastUp, radio`events
      ensures Valid() && View() == Apply(old(View()), a)
    {
      ReachableStep(View(), a);
      if a.LinkComesUp? {
        radio.ComeUp();
      } else {
        radio.Drop(a.reason);
      }
    }

    // ---- The worker's loop, step by step --------------------------------------------------

    method ReceiveStep()
      requires Valid() && worker.Waiting? && mailbox.Some?
      modifies this`mailbox, this`worker
      ensures Valid() && View() == Apply(old(View()), Receive)
    {
      ReachableStep(View(), Receive);
      worker := Received(mailbox.value);
      mailbox := None;
    }

    method FlagStep()
      requires Valid() && worker.Received?
      modifies this`reconfiguring, this`worker
      ensures Valid() && View() == Apply(old(View()), Flag)
    {
      ReachableStep(View(), Flag);
      reconfiguring := true;
      worker := Flagged(worker.creds);
    }

    method StopTimerStep()
      requires Valid() && worker.Flagged?
      modifies this`worker, timer
      ensures Valid() && View() == Apply(old(View()), StopTimer)
    {
      ReachableStep(View(), StopTimer);
      timer.Stop();
      worker := TimerStopped(worker.creds);
    }

    method DisconnectStep()
      requires Valid() && worker.TimerStopped?
      modifies this`worker, radio`link, radio`events
      ensures Valid() && View() == Apply(old(View()), Disconnect)
    {
      ReachableStep(View(), Disconnect);
      radio.Disconnect();
      worker := Applying(worker.creds, 0);
    }

    /** configure_sta. */
    method ConfigureSta(creds: Creds, driverOk: bool) returns (applied: bool)
      modifies this`staSsid, radio`cfg
      ensures applied == (FitsDriver(creds) && driverOk)
      ensures staSsid == (if applied then creds.ssid else old(staSsid))
      ensures radio.cfg == if applied then creds.issue else old(radio.cfg)
    {
      if |creds.ssid| < 1 || |creds.ssid| >= 32 || |creds.password| >= 64 { return false; }
      applied := radio.SetConfig(creds.issue, driverOk);
      if applied {
        staSsid := creds.ssid;
      }
    }

    /** One attempt of configure_sta and the loop around it. */
    method ConfigureStep(driverOk: bool)
      requires Valid() && worker.Applying? && radio.events == []
      modifies this`worker, this`staSsid, radio`cfg
      ensures Valid() && View() == Apply(old(View()), TryApply(driverOk))
    {
      ReachableStep(View(), TryApply(driverOk));
      TryOnce(driverOk);
    }

    method TryOnce(driverOk: bool)
      requires InRange() && worker.Applying? && radio.events == []
      modifies this`worker, this`staSsid, radio`cfg
      ensures InRange() && View() == Apply(old(View()), TryApply(driverOk))
    {
      var creds, attempt := worker.creds, worker.attempt;
      var applied := ConfigureSta(creds, driverOk);
      if applied || attempt + 1 >= APPLY_ATTEMPTS {
        worker := Concluding(creds, applied);
      } else {
        worker := Applying(creds, attempt + 1);
      }
    }

    method ConcludeStep()
      requires Valid() && worker.Concluding?
      modifies this`staConfigured, this`worker
      ensures Valid() && View() == Apply(old(View()), Conclude)
    {
      ReachableStep(View(), Conclude);
      if worker.applied {
        staConfigured := true;
      }
      worker := Publishing(worker.creds, worker.applied);
    }

    /** The publish block. */
    method PublishStep()
      requires Valid() && worker.Publishing?
      modifies this`retryCount, this`staState, this`lastReason, this`configResult, this`configRequestId,
               this`published, this`history, this`reconfiguring, this`worker
      ensures Valid()
      ensures View() == Apply(old(View()), Publish)
    {
      ReachableStep(View(), Publish);
      PublishOutcome();
    }

    method PublishOutcome()
      requires InRange() && worker.Publishing?
      modifies this`retryCount, this`staState, this`lastReason, this`configResult, this`configRequestId,
               this`published, this`history, this`reconfiguring, this`worker
      ensures InRange() && View() == Apply(old(View()), Publish)
    {
      var creds, applied := worker.creds, worker.applied;
      ForgetLastLink();
      RecordOutcome(creds, applied);
      reconfiguring := false;
      worker := if staConfigured then Reconnecting else Waiting;
    }

    method RecordOutcome(creds: Creds, applied: bool)
      modifies this`configResult, this`configRequestId, this`published, this`history
      ensures configResult == if applied then Applied else Failed
      ensures configRequestId == creds.requestId
      ensures published == creds.issue && history == old(history) + [creds.issue]
    {
      configResult := if applied then Applied else Failed;
      configRequestId := creds.requestId;
      published, history := creds.issue, history + [creds.issue];
    }

    /** The first half of the publish block. */
    method ForgetLastLink()
      modifies this`retryCount, this`staState, this`lastReason
      ensures retryCount == 0 && lastReason == 0
      ensures staState == if staConfigured then Connecting else Unconfigured
    {
      retryCount := 0;
      staState := if staConfigured then Connecting else Unconfigured;
      lastReason := 0;
    }

    method ReconnectStep()
      requires Valid() && worker.Reconnecting?
      modifies this`retryCount, this`staState, this`worker, radio`link, radio`connects, timer
      ensures Valid() && View() == Apply(old(View()), Reconnect)
    {
      ReachableStep(View(), Reconnect);
      ScheduleRetryStep();
      worker := Waiting;
    }
  }
}
