# DragonBench, verified

A Dafny 4.11 model of the concurrent parts of the DragonBench firmware and of the host tools that read
it, with proofs. `dafny verify dfyconfig.toml` checks the whole project.

| modules | what they model |
|---|---|
| `RunRecord`, `RunProtocol`, `RunInvariant`, `RunTheorems`, `RunScenarios` | the run record, and the run lifecycle as a step protocol: handler, boot task and any number of workload tasks, one lock section per step |
| `Board`, `EventRing`, `PollingWait`, `RunIdentity` | the firmware's shared variables and the code of each lock section, proved to take exactly one protocol step from one reachable state to another; the event ring; the abortable wait; run identifiers and paths |
| `RebootChain`, `BootEvents`, `RebootRun` | the reboot marker over any sequence of boots; the boot task's events; and the board's sections put together for one session from boot to restart and the boot after it |
| `StationProtocol`, `StationInvariant`, `StationTheorems` | Wi-Fi provisioning and reconnection as a step protocol: handler, one-slot mailbox, worker, driver, event handler, retry timer |
| `Station`, `SetupPage`, `SerialIds`, `RetryBackoff`, `Hostname` | the station code and the setup page's script against that protocol; request identifiers; the delay schedule; the announced name |
| `Options`, `CStrings`, `Arithmetic` | shared by the others |
| `FlashWear` | the wear loop on NOR flash: an erase sets bits, a program only clears them |
| `LockScanner`, `LexicalState`, `LockScope`, `LockReport`, `LockMayHold`, `LockRetake` | the lock-scope test: its scanner and what the blanked text shows, its walker, the executions its verdict is about, what exactly it reports and where, an exact computation to compare it with, and exactly when a take can mislead it |
| `LineSplitter`, `CaptureFold`, `Recovery` | the serial line splitter, the capture analysis, and the rejection of stale status reads |

## How the protocols are stated

A protocol is a state, the actions enabled in it, and the state after each. A state is reachable when
some list of enabled actions leads to it from boot; theorems quantify over all reachable states, that is,
over every interleaving. The run protocol keeps the whole history of a boot session, so that statements
such as "an abort was accepted before the worker read the flag" are read off it. The classes `Board` and
`Station` hold the firmware's variables; each method is one atomic section of the C code, and its
postcondition says that the variables move as the protocol does, from one reachable state to another. The
steps that touch none of the board's variables are `StepElsewhere`; those of the Wi-Fi driver are
`DriverStep`.

Runs are known in the history by their place in the order of admission, so that identifiers, which
repeat after 2^32 runs, are proved distinct rather than assumed so. Submissions are likewise counted, and
their 32-bit identifiers, which travel with them, are proved to be those of their numbers.

## Assumptions

- One lock section is one step, and so is each unlocked access that matters: advancing the event
  counter, writing the reboot marker, the publish block, the handling of one Wi-Fi event, a timer
  callback, and a status read as the page sees it. The C code does not guard these against tearing.
- Handlers may interleave arbitrarily with everything else. The firmware's server runs them one at a
  time, so the model allows more than happens.
- The Wi-Fi driver reports events in order; the pause before the worker's first attempt is long enough
  for the events of the old connection to be handled; a connect on an idle driver starts an attempt, and
  one on a busy driver changes nothing; a leave (reason 8) is reported only for a disconnect that the
  worker asked for. `ForeignLeaveStrands` shows what happens without the last one.
- The restart in the workload task is the only software reset, retained memory survives it, and boot
  nonces are taken not to repeat where that is stated.
- Time never goes back within a boot session. Event and tick counters of 64 bits are unbounded;
  32-bit counters wrap as in the code.
- A partition is at most 1 GiB, so that offsets stay clear of overflow.

## What turned out not to hold

The code is modelled as it is. Where a natural claim fails, a lemma gives the case and another the exact
condition.

- The result of a run that restarts the board is not always "pass": once it has released the record, an
  admission wipes the abort flag that its reboot check reads (`AbortedRunCanRestart`; exactly when:
  `RestartExactly`, `MarkerNamesWaitedRun`).
- An event's slot number and the number in its text can differ, as the counter is advanced outside the
  lock (`NumbersCanDiffer`; exactly when: `SlotNumberExactly`; contiguous without overlap:
  `EventNumbersContiguous`).
- The comment on request identifiers promises order below a distance of 2^31. That is true of identifiers
  and one too many for submissions, as the turn skips zero (`OneStepTooFar`; exactly when:
  `WindowIsTight`).
- The lock-scope test passes code in which a branch releases an outer hold, takes the lock and releases it
  again, although the call after that branch can be made with the lock held (`RetakeHidesCall`; sound
  without such a take: `CheckerIsSound`; exactly which takes can mislead it: `TakeIsHarmlessExactly`).
- A give reported as unmatched may yet be reached with the lock held, after a hold left at the end of a
  block or a take under a released hold (`ForgottenHoldReachesGive`, `RetakenHoldReachesGive`; never
  otherwise: `ReportedGiveIsReachedFree`).
- A request's host is validated for the network workloads alone, but put into the event parameters of
  every run (`AcceptedHosts`).
- The scanner's promise to keep line numbers fails for a text that leaves a literal open and ends in a
  line end, and its length changes when the last character opens a literal (`OpenLiteralMovesText`;
  exactly when: `LineEndsExactly`, `LengthExactly`).
- The offline scan accepts an answer of the baseline's own session when the answer's uptime is missing,
  and also when the baseline's is (`MissingUptimeIsAccepted`; exactly when:
  `ScanAcceptsOldSessionExactly`); the online poll likewise (`PollAcceptsOldSessionExactly`).
- Two finished capture analyses cannot be merged: their counts of duplicate resets do not always add up
  (`AnalysesDoNotMerge`; exactly when: `AnalysesCombineExactly`). Their summaries, which keep the number
  of banners, can (`SummariesMerge`).

## Model

| member | source | states |
|---|---|---|
| `RunTheorems.RunEventsFollowLifecycle` | firmware/targets/esp32s3/main/main.c:264-323 | In every interleaving with fewer than 2^32 runs, the events carrying a run's id are a prefix of start, fault if any, end, complete; until the verdict is settled only the start can be there, and from then on both end events carry that verdict, with a fault only if it is fail |
| `RunTheorems.CompleteRunHasWholeLifecycle` | firmware/targets/esp32s3/main/main.c:264-323 | Once the run's last event is in the ring they are the whole lifecycle with the settled verdict, the fault exactly when the second look at the flag led to it |
| `RunTheorems.EndEventsCarryVerdict` | firmware/targets/esp32s3/main/main.c:307-315 | Every phase end and run completion in the history carries its run's settled verdict |
| `RunTheorems.PhasesNeverOverlap` | firmware/targets/esp32s3/main/main.c:276-315 | Over all runs, phase starts and ends strictly alternate in the ring, each end closing the phase that is open |
| `RunTheorems.SingleOwner` | firmware/targets/esp32s3/main/main.c:266-269 | The shared record is running or aborting exactly when the handler is between begin and task creation or one worker has not finished; that worker's copy equals the record; a completed run did not end before it started |
| `RunTheorems.RecordTellsNewestRun` | firmware/targets/esp32s3/main/main.c:443-506 | What the record tells of the newest run: in progress until its own finish, aborting exactly from an accepted abort on, then its settled verdict; failed if it never got a task |
| `RunTheorems.AdmissionStartsAfresh` | firmware/targets/esp32s3/main/main.c:476-478 | Nothing of the run before is left in the record, its result and end time included |
| `RunTheorems.FinishHitsOwnRun` | firmware/targets/esp32s3/main/main.c:312-314 | A worker's finish always finds its own run active in the record, records the verdict it settled on, and leaves the record without an owner |
| `RunTheorems.FailedSpawnClosesOwnRun` | firmware/targets/esp32s3/main/main.c:480-483 | When the workload task cannot be created, the handler's finish closes the run it has just admitted, as failed, and no event of it is in the ring |
| `RunTheorems.FailedSpawnStaysSilent` | firmware/targets/esp32s3/main/main.c:480-483 | Nor is there ever one later, in any continuation |
| `RunTheorems.AbortHitsNamedRun` | firmware/targets/esp32s3/main/main.c:508-515 | An accepted abort names the running run, and no other run of the session has that id |
| `RunTheorems.VerdictAgreesWithAborts` | firmware/targets/esp32s3/main/main.c:307 | The verdict is aborted exactly when an abort of that run was accepted before the first look at the flag; otherwise pass or fail exactly as the body returned |
| `RunTheorems.VerdictIsFinal` | firmware/targets/esp32s3/main/main.c:307-315 | No later step, an accepted abort included, changes a settled verdict |
| `RunTheorems.AbortFlagIsMonotone` | firmware/targets/esp32s3/main/main.c:136-143 | The abort flag is lowered by nothing but the next admission |
| `RunTheorems.FaultExactly` | firmware/targets/esp32s3/main/main.c:307-311 | After the phase has ended a fault event is there exactly when the body failed and no abort was accepted before the second look at the flag |
| `RunTheorems.FaultedPhaseEndsInFail` | firmware/targets/esp32s3/main/main.c:307-311 | A run with a fault event has fail in its phase end, although the flag is read twice |
| `RunTheorems.RestartExactly` | firmware/targets/esp32s3/main/main.c:316-321 | The reboot check succeeds exactly for a controlled reboot whose body waited out, when no abort of whatever run is then the newest has been accepted |
| `RunTheorems.MarkerNamesWaitedRun` | firmware/targets/esp32s3/main/main.c:316-318 | A valid marker names a controlled-reboot run of this session that waited its full duration; it passed, or it was aborted and a newer run had been admitted by its reboot check |
| `RunScenarios.AbortedRunCanRestart` | firmware/targets/esp32s3/main/main.c:312-321 | The second case is real: a reachable state in which a run reported as aborted restarts the board, because the next admission wiped the flag |
| `RunTheorems.EventNumbersContiguous` | firmware/targets/esp32s3/main/main.c:105-132 | When emissions do not overlap, stored numbers are 1, 2, 3, ... and end at the counter |
| `RunTheorems.SlotNumberExactly` | firmware/targets/esp32s3/main/main.c:110-128 | In general, for workers and the boot task alike, the slot's number equals the one in the event's text exactly when no other number was taken in between |
| `RunScenarios.NumbersCanDiffer` | firmware/targets/esp32s3/main/main.c:110-128 | And they do differ in a reachable state, where the boot task's last number falls between a run's number and its commit |
| `RunTheorems.SameIssuedIdExactly` | firmware/targets/esp32s3/main/main.c:477 | Two admissions of a session share an id exactly when a whole turn of the 32-bit counter lies between them |
| `RunInvariant.StepKeepsInv` | firmware/targets/esp32s3/main/main.c:264-323 | Every step of handler, boot task or any worker keeps the invariant behind the statements above |
| `RunInvariant.BootInv` | firmware/targets/esp32s3/main/main.c:1156-1174 | The state set up at boot satisfies it, whatever the retained memory holds |
| `RebootChain.ReportNamesPrecedingRun` | firmware/targets/esp32s3/main/main.c:1160-1165 | Over any sequence of boots, a previous run is reported exactly after a software restart, and it is a marked run of the session just before |
| `RebootChain.ReportedOnce` | firmware/targets/esp32s3/main/main.c:1161-1165 | As long as boot nonces do not repeat, no run is reported in two boots |
| `BootEvents.BootEventsExactly` | firmware/targets/esp32s3/main/main.c:1172-1202 | The boot task emits boot, reset reason and ready, in this order, each naming the run reported as previous |
| `BootEvents.BootEventsNamePrecedingRun` | firmware/targets/esp32s3/main/main.c:1160-1202 | After a software restart that is the run of the session before that left the marker |
| `BootEvents.BootComesFirst` | firmware/targets/esp32s3/main/main.c:1173-1201 | The first two come first in the ring: no run is admitted before them |
| `Board.Board.constructor` | firmware/targets/esp32s3/main/main.c:1159-1167 | Boot reads the marker once, trusts it after a software reset only, reports and clears it |
| `Board.Board.Admit` | firmware/targets/esp32s3/main/main.c:472-479 | Refused exactly while a run is active and then changes nothing; otherwise takes the protocol's admission step and returns the id now in the record |
| `Board.Board.CloseUnspawned` | firmware/targets/esp32s3/main/main.c:480-483 | Takes exactly the protocol's failed-spawn step |
| `Board.Board.AbortPost` | firmware/targets/esp32s3/main/main.c:508-515 | Succeeds exactly when the path names the run in the record and that run is running; otherwise changes nothing |
| `Board.Board.CopyRun` | firmware/targets/esp32s3/main/main.c:267-269 | The worker's copy is the record at that step |
| `Board.Board.TakeEventNumber` | firmware/targets/esp32s3/main/main.c:110 | The unlocked half of an emission: the number taken is the one the protocol gives this emitter |
| `Board.Board.CommitEventText` | firmware/targets/esp32s3/main/main.c:126-132 | The locked half: the ring's history gains the text, cut beyond 511 characters, with the counter as it stands by then |
| `Board.Board.RunGet` | firmware/targets/esp32s3/main/main.c:496-506 | Tells of a run exactly when the path names the one in the record, and then what the record says |
| `Board.Board.SettleVerdict` | firmware/targets/esp32s3/main/main.c:307 | The verdict computed is the one the history then holds for the run |
| `Board.Board.ReportsFault` | firmware/targets/esp32s3/main/main.c:310 | The flag is read a second time only for a failed body, and a fault is emitted exactly when it is still clear |
| `Board.Board.CompleteRun` | firmware/targets/esp32s3/main/main.c:312-314 | Takes exactly the worker's finish step |
| `Board.Board.ShouldRestart` | firmware/targets/esp32s3/main/main.c:316 | The check leads to the marker exactly when the protocol's does |
| `Board.Board.LeaveMarker` | firmware/targets/esp32s3/main/main.c:317-318 | The marker written is the protocol's |
| `RunRecord.ValidateRequest` | firmware/common/db_run.c:32-56 | Accepts exactly the requests with a duration in range and, for network workloads, a peer and a clean host; says which check failed first |
| `RunRecord.HostAlphabet` | firmware/common/db_run.c:47-54 | The host characters by their codes |
| `RunRecord.AcceptedHosts` | firmware/targets/esp32s3/main/main.c:272-275 | An accepted network request's host can stand in the event's parameters as it is; for every other workload the duration alone decides and any host is accepted |
| `RunRecord.DbRun.BeginRun` | firmware/common/db_run.c:58-65 | The whole record after a begin |
| `RunRecord.DbRun.AbortRun` | firmware/common/db_run.c:67-72 | Takes effect exactly on a running run of that id; otherwise nothing changes |
| `RunRecord.DbRun.FinishRun` | firmware/common/db_run.c:74-78 | The record after a finish: completed, with end time and verdict, all else kept |
| `PollingWait.WaitAbortable` | firmware/targets/esp32s3/main/main.c:145-152 | Returns true exactly when the deadline is reached before any polled abort, at the first turn that decides it |
| `PollingWait.OutcomesAreEnabled` | firmware/targets/esp32s3/main/main.c:145-152 | The run protocol lets a waiting body end with whatever this loop returns |
| `Board.Board.StepElsewhere` | firmware/targets/esp32s3/main/main.c:264-306 | The protocol's steps that touch no board variable leave the board valid |
| `Board.Board.BeginNext` | firmware/targets/esp32s3/main/main.c:476-478 | The admission itself: next counter, printed id, record begun |
| `RebootRun.RebootOnce` | firmware/targets/esp32s3/main/main.c:264-323 | The lock sections put together from boot on: an undisturbed controlled reboot passes after its full duration, the marker names it, and the ring has seen the session's six events |
| `RebootRun.RebootIsReported` | firmware/targets/esp32s3/main/main.c:1160-1165 | The next boot reports exactly that run and clears the marker |
| `RunIdentity.HexRoundTrip` | firmware/targets/esp32s3/main/main.c:477 | Printing a number in enough hexadecimal digits and reading it back gives the number |
| `RunIdentity.RunIdFitsAndIdentifies` | firmware/targets/esp32s3/main/main.c:476-477 | An id is 17 characters, fits its buffer, has no slash, and determines nonce and counter |
| `RunIdentity.Find` | firmware/targets/esp32s3/main/main.c:491 | The first position at which the needle occurs, or none if it occurs nowhere |
| `RunIdentity.PathRoundTrip` | firmware/targets/esp32s3/main/main.c:488-494 | The get path and the abort path both parse back to exactly the id they were built from, if and only if it is not empty and fits |
| `RunIdentity.PathRunIdExactly` | firmware/targets/esp32s3/main/main.c:488-494 | For every path: the abort path gives the part before the first suffix if there is one and the part is not empty and fits, the get path the whole rest likewise |
| `RunIdentity.IssuedIdRoundTrip` | firmware/targets/esp32s3/main/main.c:488-494 | So every issued id reaches the handler unchanged on both paths |
| `EventRing.EventRing.Commit` | firmware/targets/esp32s3/main/main.c:126-132 | In place, the ring goes on representing the newest 64 of the whole history; the text added is the event's own up to 511 characters, its first 511 otherwise |
| `EventRing.EventRing.SlotsHoldHistory` | firmware/targets/esp32s3/main/main.c:41-132 | Each event still in the window has a slot with its number and its text as a C string |
| `EventRing.PrefixExactly` | firmware/targets/esp32s3/main/main.c:129 | What is kept of a text is all of it if it fits with its terminator, and otherwise its beginning, one character less than the buffer |
| `EventRing.EventRing.Snapshot` | firmware/targets/esp32s3/main/main.c:528-538 | The copy holds, oldest first, exactly the texts of the newest events, whatever was in its buffers before |
| `EventRing.PrintedReadsBack` | firmware/targets/esp32s3/main/main.c:129 | Printing into a buffer with old content and reading it as a C string gives the text, cut only where the buffer ends |
| `EventRing.WindowSlides` | firmware/targets/esp32s3/main/main.c:130-131 | A commit appends to the represented window and, once it is full, drops exactly its oldest entry |
| `SerialIds.NthIdClosedForm` | firmware/common/db_network.c:39-42 | The n-th id is ((n - 1) mod (2^32 - 1)) + 1 |
| `SerialIds.NewerExactly` | firmware/common/db_network.c:39-47 | For every n and k, exactly when the id issued k later compares as newer, wraps and skipped zeros included |
| `SerialIds.LaterIsNewer` | firmware/common/include/db_network.h:34-40 | Up to 2^31 - 2 submissions apart the later id is newer and the earlier is not |
| `SerialIds.Asymmetric` | firmware/common/db_network.c:44-47 | The comparison is asymmetric; neither side is newer exactly for equal ids and at distance 2^31 |
| `SerialIds.SameIdExactly` | firmware/common/db_network.c:39-42 | Ids less than a full turn apart are equal only for the same submission |
| `SerialIds.NewerMeansLater` | firmware/common/db_network.c:44-47 | Within the window, newer if and only if submitted later |
| `SerialIds.WindowIsTight` | firmware/common/include/db_network.h:34-40 | One submission further, the later id is newer if and only if the turn does not skip zero on the way |
| `SerialIds.OneStepTooFar` | firmware/common/include/db_network.h:34-40 | And an id at which it is not |
| `RetryBackoff.RetryDelayMs` | firmware/common/db_network.c:31-37 | The doubling loop in wrapping 32-bit arithmetic computes min(5000 * 2^(a - 3), 60000), and 0 for the first three attempts |
| `RetryBackoff.DelayMonotone` | firmware/common/db_network.c:31-37 | The schedule never decreases, is capped, and is zero exactly for the fast retries |
| `RetryBackoff.ScheduleLaw` | firmware/common/db_network.c:31-37 | The schedule by its own law: none for three attempts, five seconds, then doubled up to a minute |
| `StationTheorems.ConnectedIsTruthful` | firmware/targets/esp32s3/main/main.c:872-885 | The page says it is connected for a submission only when that very submission's credentials are in the driver and the link came up with them, up now or its loss not yet handled; an earlier connection never counts, not even to the same SSID |
| `StationTheorems.FailureIsTruthful` | firmware/targets/esp32s3/main/main.c:881 | The page says a submission could not be applied only when that one was tried and the driver does not hold it |
| `StationTheorems.ReplacedExactly` | firmware/targets/esp32s3/main/main.c:868-879 | The page says a newer submission replaced the pending one if and only if a strictly later one has been processed |
| `StationTheorems.NewestIsNeverLost` | firmware/targets/esp32s3/main/main.c:1018-1024 | The latest submission is always in the mailbox, in the worker's hands, or published |
| `StationTheorems.IdsTravelWithSubmissions` | firmware/targets/esp32s3/main/main.c:998 | The id published is the one stored with the credentials, which is the one the submitter was given |
| `StationTheorems.PublishedIdsIncrease` | firmware/targets/esp32s3/main/main.c:973-998 | Published submissions are a strictly increasing selection of those made, and compare so by their ids |
| `StationTheorems.AcceptedFitsDriver` | firmware/targets/esp32s3/main/main.c:1010-1011 | Whatever the handler accepts passes the driver's length checks, so only the driver itself can refuse it |
| `StationTheorems.AcceptedByLength` | firmware/targets/esp32s3/main/main.c:1010-1011 | Accepted are 1 to 31 characters of SSID and a password of 8 to 63 or none |
| `StationTheorems.NeverGivesUp` | firmware/targets/esp32s3/main/main.c:950-967 | Configured, not reconfiguring and not connected, the station is trying, has its timer armed, is about to be connected by the worker, or has an event to handle; with the link down and neither of the others, the last of these is a loss that is not its own leave |
| `StationTheorems.RetryExactly` | firmware/targets/esp32s3/main/main.c:957-967 | A handled loss that asks for a retry is counted; the attempt is made at once for the first three, and otherwise by the timer with the schedule's delay |
| `StationTheorems.DisplayIsTruthful` | firmware/targets/esp32s3/main/main.c:950-1085 | A display of connecting, waiting or connected is borne out by the driver and the timer |
| `StationTheorems.ConfiguredExactly` | firmware/targets/esp32s3/main/main.c:985-994 | The station is configured if and only if the board booted with a network or the driver has taken a submission, and shows unconfigured exactly otherwise; unconfigured, it never connects |
| `StationTheorems.RefusedFirstStaysUnconfigured` | firmware/targets/esp32s3/main/main.c:985-1001 | A refused first submission publishes a failure, unconfigured, and no connect |
| `StationTheorems.RefusedTwentyTimes` | firmware/targets/esp32s3/main/main.c:981-984 | Twenty refusals in a row make a failure, and fewer do not |
| `StationTheorems.PendingLossMakesItTry` | firmware/targets/esp32s3/main/main.c:1072-1079 | And handling that loss starts an attempt or arms the timer |
| `StationTheorems.LossLeadsToRetryExactly` | firmware/targets/esp32s3/main/main.c:1072-1079 | A handled loss leads to an attempt or an armed timer exactly when it is not reported as the station's own leave |
| `StationTheorems.ForeignLeaveStrands` | firmware/targets/esp32s3/main/main.c:1078 | Why that assumption is needed: a leave reported of the driver's own accord leaves a reachable station with nothing to wake it but a new submission |
| `StationTheorems.NoConnectWhileReconfiguring` | firmware/targets/esp32s3/main/main.c:950-967 | Every call to connect, heeded or not, is made outside reconfiguration and with the link down, so it starts an attempt with the present credentials |
| `StationTheorems.AttemptsAreConnects` | firmware/targets/esp32s3/main/main.c:950-967 | And no attempt starts without one |
| `StationTheorems.TimerOffWhileConnected` | firmware/targets/esp32s3/main/main.c:1080-1085 | The retry timer is never armed while connected |
| `StationTheorems.ArmedDelayExactly` | firmware/targets/esp32s3/main/main.c:957-967 | Each delay armed is the schedule's for the attempt number at that moment, past the fast retries |
| `StationTheorems.DelaysNeverShrink` | firmware/targets/esp32s3/main/main.c:957-967 | Along any run without a connection or a publication, an armed delay is never shorter than one armed before |
| `StationInvariant.StepKeepsInv` | firmware/targets/esp32s3/main/main.c:950-1031 | Every step of handler, worker, driver, event handler or timer keeps the invariant behind these statements |
| `SetupPage.PageAgreesWithFirmware` | firmware/targets/esp32s3/main/main.c:868-871 | The script's unsigned comparison and the firmware's agree on all pairs of ids |
| `SetupPage.SetupPage.Render` | firmware/targets/esp32s3/main/main.c:872-885 | What a response makes of the pending submission and of the message, in every branch |
| `StationTheorems.PageSaysExactly` | firmware/targets/esp32s3/main/main.c:872-885 | Of a pending submission, in every reachable state: when exactly each message is said, with which network and reason, and when exactly the page goes on waiting; connected comes before any earlier reason |
| `StationTheorems.ReasonIsOfLastLoss` | firmware/targets/esp32s3/main/main.c:996-1079 | The reason is that of the last loss handled since the submission was published |
| `Station.Station.NetworkStaPost` | firmware/targets/esp32s3/main/main.c:1005-1031 | Accepts exactly the valid submissions, gives the next id, overwrites the mailbox; a refused one changes nothing |
| `Station.Station.ScheduleRetryStep` | firmware/targets/esp32s3/main/main.c:957-967 | Takes exactly the protocol's retry step, counter wrap included |
| `Station.Station.RetryFire` | firmware/targets/esp32s3/main/main.c:950-955 | Takes exactly the protocol's timer step |
| `Station.Station.WifiEventStep` | firmware/targets/esp32s3/main/main.c:1072-1089 | Takes exactly the protocol's step for the oldest event |
| `Station.Station.ConfigureSta` | firmware/targets/esp32s3/main/main.c:933-943 | Succeeds exactly when the lengths fit and the driver agrees, and only then changes the driver's credentials and the displayed network |
| `Station.Station.ConfigureStep` | firmware/targets/esp32s3/main/main.c:981-984 | One attempt and the loop test around it take exactly the protocol's step, twenty attempts at most |
| `Station.Station.PublishStep` | firmware/targets/esp32s3/main/main.c:993-1000 | The publish block takes exactly the protocol's step, with the id stored with the credentials |
| `FlashWear.PartitionCycle` | firmware/targets/esp32s3/main/main.c:185-216 | Result, bytes (4096 per verified round), the whole flash content and every block's erase count after any list of rounds; a missing, running or unbuffered partition is left alone |
| `FlashWear.EraseWriteVerify` | firmware/targets/esp32s3/main/main.c:197-208 | On flash that erases to ones and programs by clearing, read-back never differs: only a driver failure or an offset past the end fails a round, and the block holds exactly the data |
| `FlashWear.PositionIsQuotient` | firmware/targets/esp32s3/main/main.c:196-209 | Round k is at block k modulo the number of whole blocks |
| `FlashWear.OffsetGoesRound` | firmware/targets/esp32s3/main/main.c:196 | The loop's wrap rule is that position, always in bounds |
| `FlashWear.WearIsLevel` | firmware/targets/esp32s3/main/main.c:195-212 | After n rounds each block has been erased once per full turn, plus once if it comes before the present position |
| `FlashWear.WearDiffersByAtMostOne` | firmware/targets/esp32s3/main/main.c:195-212 | Any two blocks' erase counts differ by at most one |
| `FlashWear.LastRoundStays` | firmware/targets/esp32s3/main/main.c:203 | A block holds what the last round at it left |
| `FlashWear.UntriedStays` | firmware/targets/esp32s3/main/main.c:195-212 | Cells outside the blocks reached are unchanged, the odd end of the partition included |
| `LockScope.CheckerIsSound` | tests/test_lock_scope.py:68-106 | On any brace-balanced code that does not take again where an outer hold was released for a branch, an empty report means that no execution makes a blocking call with the lock held |
| `LockScope.EmptyReportMeansSafe` | tests/test_lock_scope.py:68-106 | The same of the report that the loop returns |
| `LockMayHold.ViolatesExactly` | tests/test_lock_scope.py:3-7 | Some execution makes a blocking call with the lock held if and only if a may-hold computation over the nested blocks finds one |
| `LockMayHold.EmptyReportMisleadsOnlyOnRetake` | tests/test_lock_scope.py:68-106 | Where an empty report misleads by that computation, the code takes again where an outer hold was released for a branch |
| `LockRetake.TakeIsHarmlessExactly` | tests/test_lock_scope.py:92-102 | After any rule-abiding code with nothing reported, blocks still open, every continuation beyond an unreported take that the test passes is safe if and only if the walker does not think the lock held at that take |
| `LockRetake.TakeOfAFreeLockIsHarmless` | tests/test_lock_scope.py:92-102 | One direction, for each continuation |
| `LockRetake.RetakeCanMislead` | tests/test_lock_scope.py:92-102 | The other: a completion that passes the test and makes the call with the lock held |
| `LockScope.RetakeHidesCall` | tests/test_lock_scope.py:92-102 | Without that condition the statement fails: a branch that gives, takes and gives hides the call after it |
| `LockScope.CheckerIsExact` | tests/test_lock_scope.py:68-106 | If moreover nothing is given twice and only calls are reported, each call is reported, by its name, if and only if some execution makes it with the lock held |
| `LockReport.UnmatchedGivesExactly` | tests/test_lock_scope.py:96-98 | An unmatched give is reported if and only if some give stands where the walk so far holds no lock |
| `LockReport.GiveBeforeAnyTakeIsReported` | tests/test_lock_scope.py:96-98 | In particular whenever no take precedes a give |
| `LockReport.NestedTakesExactly` | tests/test_lock_scope.py:92-94 | A nested take is reported if and only if some take stands where the walk so far holds the lock unreleased |
| `LockReport.HoldsLeftExactly` | tests/test_lock_scope.py:85-91 | A lock left held is reported if and only if a block ends at the depth of the take that still holds |
| `LockReport.HeldCallsExactly` | tests/test_lock_scope.py:103-105 | A call is reported, by its name, if and only if it stands where the walk so far holds the lock unreleased |
| `LockReport.ProblemsAreAtTheirLines` | tests/test_lock_scope.py:78-79 | Every problem is of a token that calls for it, at that token's line: one more than the line ends before it |
| `LockReport.EachFindingIsReported` | tests/test_lock_scope.py:82-106 | And each token's finding is in the report, at its line |
| `LockReport.HeldIsBelievedEverywhere` | tests/test_lock_scope.py:68-106 | Wherever some execution comes by with the lock held, the walker believes it held, on code without a hold left or a retake |
| `LockReport.ReportedGiveIsReachedFree` | tests/test_lock_scope.py:96-98 | A give reported as unmatched is one that no execution reaches with the lock held, on such code |
| `LockReport.RetakenHoldReachesGive` | tests/test_lock_scope.py:92-102 | Why no retake: after one, a give reported as unmatched is reached with the lock held |
| `LockReport.ForgottenHoldReachesGive` | tests/test_lock_scope.py:88-90 | Why no hold left: after one, likewise |
| `LockScope.LockScopeViolations` | tests/test_lock_scope.py:68-106 | The loop reports, in order and at each token's line, exactly the walker's findings; LockReport says which those are |
| `LockScope.BeliefCovers` | tests/test_lock_scope.py:82-105 | Wherever an execution can hold the lock, the walker believes it held, and each call made there is reported by name |
| `LockScope.EveryHeldCallIsReported` | tests/test_lock_scope.py:68-106 | Every call that some execution makes with the lock held is reported by name, whatever else is, on code without a hold left or a retake |
| `LockScope.ParseAll` | tests/test_lock_scope.py:82-84 | Every brace-balanced token sequence is the token sequence of some nested code |
| `LockScanner.BlankCommentsAndLiterals` | tests/test_lock_scope.py:43-65 | The scanning loop computes the blanking of the whole text; LexicalState says what that shows |
| `LexicalState.BlankShows` | tests/test_lock_scope.py:43-65 | Position by position, against a character-by-character account of comments and literals: code and quotes are kept, all else is a space or its line end; the last position excepted when a literal is left open |
| `LexicalState.LastShowsQuote` | tests/test_lock_scope.py:57-62 | There stands that literal's quote |
| `LexicalState.UnterminatedExactly` | tests/test_lock_scope.py:57-62 | A literal is left open if and only if the text ends inside one by that account |
| `LexicalState.OpensAtEndExactly` | tests/test_lock_scope.py:57-62 | Its quote is the last character if and only if a quote is read as code there |
| `LockScanner.LengthExactly` | tests/test_lock_scope.py:43-65 | Blanking keeps the length, unless the last character opens a literal, and then adds one character |
| `LockScanner.LineEndsExactly` | tests/test_lock_scope.py:43-65 | Line ends stay exactly where they were if and only if it is not the case that a literal is left open and the text ends in a line end |
| `LockScanner.OpenLiteralMovesText` | tests/test_lock_scope.py:57-61 | The least texts for which length and line ends change |
| `LockScanner.LineNumbersAreExact` | tests/test_lock_scope.py:78-79 | With every literal closed, every reported line number is the source's: one more than the line ends before the position |
| `LockScanner.BlankIsIdempotent` | tests/test_lock_scope.py:43-65 | Blanking twice is blanking once, for every text |
| `LineSplitter.ChunksDoNotMatter` | tools/reset_characterization.py:159-176 | However a connection's bytes are cut into readings, the lines are those of its whole stream, connection by connection |
| `LineSplitter.LeftOverIsTheLastRest` | tools/reset_characterization.py:159-176 | And what is left over is what follows the last connection's last line end |
| `LineSplitter.SplitInPieces` | tools/reset_characterization.py:170-176 | Lines and leftover of two pieces from those of the first and of the second behind the first's leftover |
| `LineSplitter.SplitLosesNothing` | tools/reset_characterization.py:171-172 | Lines and leftover put back together are the stream |
| `LineSplitter.LinesHaveNoLf` | tools/reset_characterization.py:171-172 | No line contains a line end |
| `LineSplitter.StripCrExactly` | tools/reset_characterization.py:174 | What is stripped are the carriage returns at the end, all of them, and nothing else |
| `LineSplitter.TextsExactly` | tools/reset_characterization.py:171-176 | Each line gives one text, in order |
| `LineSplitter.OneConnection` | tools/reset_characterization.py:162-170 | While the port stays, the bytes read are one stream |
| `LineSplitter.LossSeparates` | tools/reset_characterization.py:164-167 | What is read before and after a loss never meets in a line |
| `LineSplitter.SerialMonitor.TakeLines` | tools/reset_characterization.py:171-176 | The inner loop appends exactly the stream's lines, carriage returns stripped, and leaves its rest |
| `LineSplitter.SerialMonitor.ReadLoop` | tools/reset_characterization.py:159-176 | The read loop over any mixture of chunks, timeouts and lost ports appends exactly the lines of every connection's whole stream |
| `CaptureFold.AnalyzeCapture` | tools/reset_characterization.py:229-272 | The pass over the lines computes the report of the capture's summary |
| `CaptureFold.SummariesMerge` | tools/reset_characterization.py:229-272 | The summary of one capture followed by another is the merge of their summaries, at every split point |
| `CaptureFold.BootFieldsAreFirst` | tools/reset_characterization.py:243-247 | The boot fields are those of the first line that is no banner and has them |
| `CaptureFold.MemoryTestIsLast` | tools/reset_characterization.py:256-259 | The memory test's outcome is that of the last line that reports one |
| `CaptureFold.FlashSizeIsFirst` | tools/reset_characterization.py:248-251 | The flash size is that of the first line that is no banner and gives one |
| `CaptureFold.MemoryFoundIsFirst` | tools/reset_characterization.py:252-255 | So is the memory found |
| `CaptureFold.WarningIsFirst` | tools/reset_characterization.py:260-262 | The warning's time is that of the first line that is no banner and shows it |
| `CaptureFold.FlagsAreAnyLines` | tools/reset_characterization.py:263-270 | Each flag is raised exactly when some line that is no banner raises it |
| `CaptureFold.DuplicatesAreTheOtherBanners` | tools/reset_characterization.py:237-271 | The duplicate resets are the banner lines but one, floored at zero |
| `CaptureFold.AnalysesCombineExactly` | tools/reset_characterization.py:229-272 | For all captures, the findings of finished analyses combine, and the duplicate resets add up if and only if one of the two has no banner, otherwise one short |
| `CaptureFold.AnalysesDoNotMerge` | tools/reset_characterization.py:271 | So finished analyses alone do not determine the combined one: two equal ones combine with a third to different results |
| `Recovery.FindResetInstant` | tools/phase2_extract.py:105-118 | The first banner in the whole capture, failing that the first boot event, failing that nothing |
| `Recovery.ScanForRecovery` | tools/phase2_extract.py:124-138 | The first heartbeat at or after the reset that is not stale against the last one answered before it, or none if there is none |
| `Recovery.ScanNeverAcceptsOldSession` | tools/phase2_extract.py:129-134 | With uptime never going back within a session and both uptimes known, an accepted heartbeat is from another session than the baseline |
| `Recovery.ScanAcceptsOldSessionExactly` | tools/phase2_extract.py:129-134 | A heartbeat of the baseline's own session, at or after the reset, is accepted if and only if its uptime or the baseline's is missing |
| `Recovery.MissingUptimeIsAccepted` | tools/phase2_extract.py:129-134 | Both cases happen, and with neither uptime missing such a heartbeat is rejected |
| `Recovery.PollForRecovery` | tools/reset_characterization.py:285-304 | The first answer that is not stale; failing that the last stale one, reported as such; nothing if nothing answered |
| `Recovery.OldSessionIsStale` | tools/reset_characterization.py:292 | An answer of the baseline's own session is always stale; an answer counts exactly when its uptime is missing or has gone back |
| `Recovery.PollAcceptsOldSessionExactly` | tools/reset_characterization.py:285-304 | An answer of the baseline's own session is accepted if and only if its uptime or the baseline's is missing |
| `Hostname.MdnsHostname` | firmware/common/db_network.c:21-29 | Succeeds exactly when there is a name, the configured one before the device id, and it fits; the buffer then holds it in lower case, otherwise its lower-case prefix, or is untouched when there is no name or no room |
| `Hostname.LowerExactly` | firmware/common/db_network.c:26 | Upper-case letters alone change, by 32 codes |

## Left out

- Server routing and sends, JSON reading and writing, sockets, mDNS calls, non-volatile storage, GPIO, temperature sensor: calls into other code. An event's text is any string without NUL, and a submitted request arrives parsed.
- The workload name table and the "unsupported workload" rejection: the workload is a datatype, so every value is supported.
- Bodies of the CPU, storage and network workloads: the protocol keeps only what they may return, given the abort flag.
- The station-connected test of the associated-idle workload: its body may fail at any time for want of a network.
- The landing page, styles, DOM and freshness display; of the setup page only the decision about the pending submission, within one boot session of the board.
- The status, sensors and workloads responses, the identity strings and state names: formatting.
- Torn reads inside a status response or inside the publish block: see the assumptions.
- The lock-scope test's token pattern: tokens come with their positions and kinds.
- The capture patterns and the removal of colour codes: a line comes with what each pattern finds in it; the warning's position stays a number instead of printed text.
- Decoding of serial bytes and line timestamps: lines stay bytes, and stripping carriage returns from the bytes stands for stripping them from the decoded text.
- Reopening a lost port, and the search for it: a lost port is one reading of the read loop. The other monitor's splitter (tools/phase2_monitor.py:97-111) is the same loop.
- The poll's deadline and the rounding of recovery times: the list of replies ends with the deadline, and times are exact.
- Command line, summary tables, file writing and statistics of the tools.
- FlashWear.PartitionCycle: for a partition smaller than one block the content, result and byte count are stated, but not the erase count, as there is no block to count.
