# Verified model of the N.O.O.B. gateway, Pico and camera

The system lets one remote or local controller drive a target computer: a gateway
leases control, a Pico turns serial lines into USB keyboard and mouse reports, and
an optional camera module records what a room looks like. This project models its
protocols and state machines in Dafny and proves what they promise, over every run
and every interleaving the models allow. `dafny verify dfyconfig.toml` checks it all.

## How it is laid out

- **HID control plane.** `Pico` is the firmware, `PicoEffects` what its lines and timers
  do over whole sessions; `Receiver` its line framing;
  `Commands` validation and splitting; `WireLines` the lines as JSON text; `Wire` the
  serial session as a transition system over two queues that lose and mangle lines but never reorder or forge
  them, with `WireSafety` (what every step keeps), `WireTheorems` (what follows) and
  `WireProgress` (what attempts write and that exchanges can go through);
  `Link`, `LinkSafety`, `LinkTheorems`, `LinkProgress` public commands on top of it;
  `ControlLease`, `LeaseTiming` the lease; `Runtime`, `RuntimeSafety`, `RuntimeTheorems`,
  `RuntimeEffects` the control gate and all handlers. `SerialLink` and `GatewayRuntime` are the
  gateway's objects, each method proved to be the step of the transition systems it stands for.
- **Camera media store.** `Media` (one function per critical section), `MediaStore`
  (the object, proved against it), `MediaSafety` (every interleaving with worker,
  cancellation, deletion and power loss), `MediaTheorems`, `MediaPaging`; `MediaEffects` and
  `MediaEndings` say what each operation brings about, and for how long.
- **Local controls.** `LocalInput` (the manager, event by event), `LocalChord` (the
  emergency chord over whole lists of events).
- **Video.** `JpegStream`, `JpegChunking` (which streams depend on the cuts),
  `JpegHeader`, `Video`, `VideoTheorems`, `VideoProgress` (that switches can succeed).
- **Environment camera.** `EnvironmentCamera` (public generations), `CameraContract`
  (camera state, its report, the gateway's check).
- `TokenBucket`, and `Runs` (generic reasoning about runs), `Options`.

The source works by changing objects; so do the classes here. Where handlers
interleave at suspension points, a step of a transition system is what happens
between two of them, and the theorems quantify over all reachable states.

## Findings

- A clip whose deadline passes before its first frame is accepted reports
  `complete` with error `clip_empty` and no media, and leaves its partial directory
  until the next boot (camera/main/media_store.cpp:748-768). `EmptyClipCompletes`
  reaches it; `CompleteMeansPublishedIffFrames` says exactly when completion means
  publication.
- PSRAM that initialises with size zero makes the camera report what the gateway
  refuses (camera/main/camera_manager.cpp:97-104). `ReportsAreAcceptedExactly` is the
  exact condition.
- What `JPEGStreamParser` delivers can depend on how the input is cut, because an
  unfinished image over the limit is given up only when a call ends inside it
  (gateway/noob_gateway/video.py:79-89). `ChunkingMattersExactly` is the exact
  condition, one test per image: an image of more than limit + 1 bytes must have no start
  marker in its last limit + 1 bytes, or have the first of them exactly at their start.
  Shorter images, junk and unfinished tails never matter.
- The comment at gateway/noob_gateway/local_input.py:445-446 promises that no chord
  member reaches the target. A member pressed before an ordinary key is forwarded
  with it: Control, A, Alt, Escape (`OrdinaryKeySendsChordMember`). The promise holds
  exactly if no ordinary key freshly went down behind the press of a member that is still
  held (`LocalChord.ChordHeldBackExactly`). What always holds is that the whole chord is
  never down on the target and the completing press is never forwarded.

## Assumptions

- The UART is two queues; a line may be lost or mangled in either, never reordered or
  forged. A Pico restart is a step like any other.
- A write handed to the worker thread enters its queue at once, also when the exchange
  that handed it over is cancelled: a write that reached the port only after its wire lock
  was given back is excluded. `AtMostOnce`, `AcknowledgedExactlyOnce`,
  `AcknowledgedReleaseIsFinal` and `NoOlderOperationIsWritten` rest on this, and so do
  `LeaseIsolation`, `ControllersNeverInterleave`, `GrantsStartClean`,
  `ObligationsAreNeverLost`, `TextIsTypedInOrder`, `MovementAddsUp` and
  `CommandsNeverInterleave`.
- Session ids, lease ids, media and job ids are never repeated, and the local lease id is
  never presented by a client. The lease's methods do not suspend. Clocks do not run
  backwards; the gateway does not shut down while it is in use (the capture may).
- A session draws fewer than 2^32 - 1 numbers; `SequenceRepeatsExactly` says what
  happens after that.
- The HID libraries may release keys but leave nothing new pressed: what is down is
  contained in the firmware's record, not equal to it. Releasing everything works.
- Rename is atomic, a torn manifest does not parse, and a directory is read whole. Times
  and numbers stay below 2^53. Directory sizes and free space are readings that may be
  anything. The camera driver's sensor names are printable and at most 64 characters.
- A cancelled task does nothing after its cancellation is delivered.

## Model

| member | source | states |
|---|---|---|
| RuntimeTheorems.LeaseIsolation | gateway/noob_gateway/app.py:330-363 | In every reachable state, whatever the Pico executed for a lease lies after that lease's grant, and before any later grant with an executed and acknowledged `release_all` in between |
| RuntimeTheorems.ControllersNeverInterleave | gateway/noob_gateway/app.py:529-645 | The Pico executes the inputs of controllers in the order their leases were granted, over every run and every line loss |
| RuntimeTheorems.GrantsStartClean | gateway/noob_gateway/control_lease.py:48-60 | The step that grants a lease leaves nothing held on the Pico, no earlier controller's line on its way or still writable, and every older stamp dead |
| RuntimeTheorems.ObligationsAreNeverLost | gateway/noob_gateway/app.py:343-363 | Between gate holders, anything an ended controller left unreleased is latched or its lease still recorded, and `claim` fails; failed, cancelled and unanswered releases included |
| RuntimeTheorems.OwnershipIsExclusive | gateway/noob_gateway/app.py:425-466 | Video switching excludes any lease and armed local controls; armed local controls exclude every lease but the local one |
| RuntimeEffects.OwedReleaseBegins | gateway/noob_gateway/app.py:330-341 | Whichever handler comes first once a release is owed begins it |
| RuntimeEffects.ClaimGrantsExactly | gateway/noob_gateway/app.py:529-563 | A claim is granted at once exactly if video is not switching, no local control is armed, nobody has the lease and no release is owed; it then lasts its whole time; a claim that itself notices an expired lease begins the release |
| RuntimeEffects.ConfirmedClaimIsGranted | gateway/noob_gateway/app.py:529-563 | A claim that had to wait for a release is granted when that is confirmed, unless local controls were armed before its own check |
| RuntimeEffects.RenewalExtends | gateway/noob_gateway/app.py:565-581 | A renewal in time gives the lease its whole time again and changes nothing else |
| RuntimeEffects.ReleaseBegins | gateway/noob_gateway/app.py:583-601 | A release by the holder ends the lease and begins the release of what it holds; anybody else's changes nothing |
| RuntimeEffects.InputIsAdmittedExactly | gateway/noob_gateway/app.py:604-627 | Input is admitted, under the current generation, exactly for the lease presented in time |
| RuntimeEffects.LocalInputClaims | gateway/noob_gateway/app.py:365-398 | Local input takes a free lease and is admitted under it |
| RuntimeEffects.LocalInputRenews | gateway/noob_gateway/app.py:365-398 | Local input under its own lease renews it and is admitted |
| RuntimeEffects.LocalInputIsRefused | gateway/noob_gateway/app.py:365-398 | While video switches, another controller has the lease or a release is owed, local input is not admitted and takes nobody's lease |
| RuntimeEffects.LocalReleaseBegins | gateway/noob_gateway/app.py:407-423 | Giving back the local lease begins its release; without one nothing changes |
| RuntimeEffects.ArmingBeginsExactly | gateway/noob_gateway/app.py:425-436 | Arming begins exactly if video is not switching, no release is owed when it looks, and the lease is free, has run out or is the local one |
| RuntimeEffects.SwitchingBeginsExactly | gateway/noob_gateway/app.py:441-460 | Video switching begins exactly if no release is owed when it looks, nobody has the lease and no local control is armed |
| RuntimeEffects.EmergencyBegins | gateway/noob_gateway/app.py:648-658 | An emergency release takes the lease from whoever has it and begins |
| RuntimeEffects.InvalidationBegins | gateway/noob_gateway/app.py:356-363 | Input of unknown outcome takes the lease away and begins a release |
| RuntimeEffects.FailedReleaseIsOwed | gateway/noob_gateway/app.py:343-354 | A release that fails is owed again and gives the gate back |
| WireTheorems.AtMostOnce | gateway/noob_gateway/serial_link.py:684-760 | No line (session, number) is ever executed twice, though lines are lost, mangled, written again singly or in batches of eight, and the cache holds sixteen answers |
| WireTheorems.AcknowledgedExactlyOnce | gateway/noob_gateway/serial_link.py:694-757 | An exchange that returns acknowledged ran each of its operations to the end, exactly once |
| WireTheorems.AcknowledgedReleaseIsFinal | gateway/noob_gateway/serial_link.py:273-281 | When a lone `release_all` is acknowledged the Pico holds nothing, that release is the last thing it executed, and the queue towards it carries only copies of it |
| WireTheorems.NoOlderOperationIsWritten | gateway/noob_gateway/serial_link.py:694-757 | From a state whose wire lock is free, no operation stamped with an older abort generation is ever written again, although a second attempt does not look at the generation |
| WireTheorems.SessionsNeverMix | pico/code.py:181-212 | The Pico never executes a line of an older session after one of a newer session |
| WireTheorems.RepeatedSessionIsHarmless | pico/code.py:186-203 | A session line received again is answered from the cache, or acts on a restarted Pico that holds and remembers nothing |
| WireTheorems.IdlePicoHoldsNothing | pico/code.py:98-104 | In every reachable state a Pico without a session holds nothing, its record covers what is down, and the cache is bounded |
| WireProgress.AttemptWritesUnanswered | gateway/noob_gateway/serial_link.py:728-736 | Every attempt, the second like the first, puts behind what is already on its way each line of the exchange that was not answered, once and in the order of their numbers, and nothing else |
| WireProgress.AttemptIsAnswered | gateway/noob_gateway/serial_link.py:724-757 | A retry recovers what was lost: from every reachable state with an attempt left and nothing on its way, the attempt can go through with every line answered, and acknowledged if the Pico had not heard the lines and no HID call fails |
| WireProgress.CommandCanRun | gateway/noob_gateway/serial_link.py:511-541 | From every reachable calm state, any exchange that may be requested can be queued, written, executed, each operation to its end and once, and acknowledged, and the state is calm again |
| WireProgress.SessionCanOpen | gateway/noob_gateway/serial_link.py:283-322 | From every reachable state without a session, with a free lock and quiet queues, the session line can go through: the gateway is ready, the Pico in the new session with nothing held and the watchdog asked for |
| WireProgress.OlderStampsDie | gateway/noob_gateway/serial_link.py:324-337 | After a fault, the end of a session or an emergency release, in no later state does an exchange stamped before take the wire |
| Wire.SequenceRepeatsExactly | gateway/noob_gateway/serial_link.py:505-509 | Two numbers drawn in one session are equal exactly when a multiple of 2^32-1 draws lies between them: when the uniqueness the cache relies on ends |
| LinkTheorems.TextIsTypedInOrder | gateway/noob_gateway/serial_link.py:229-268 | The text typed for a `type` command is a prefix of its text at every moment and on every outcome, and all of it on success |
| LinkTheorems.MovementAddsUp | gateway/noob_gateway/serial_link.py:543-675 | On success the executed `mouse.move` reports add up to the requested movement on every axis, in whatever order retries ran them |
| LinkTheorems.CommandsNeverInterleave | gateway/noob_gateway/serial_link.py:229-268 | No other public command's operation runs between two operations of one command |
| LinkProgress.SubmittedCanSucceed | gateway/noob_gateway/serial_link.py:204-268 | From every reachable state with an open, quiet session and a free public lock, any command that may be submitted can take the lock, send all its exchanges, one after another, and succeed with all it asked for done, the lock free and no other command touched |
| LinkProgress.CommandCanSucceed | gateway/noob_gateway/serial_link.py:220-268 | The same for a command that is already waiting, as long as its stamp is current |
| LinkProgress.SuccessMeansDone | gateway/noob_gateway/serial_link.py:229-268 | Success means the whole text typed, the whole movement made, or the operation executed to its end |
| LinkProgress.EndsAsItWent | gateway/noob_gateway/serial_link.py:222-268 | Only a command with every exchange acknowledged succeeds, every other end is a failure; the public lock is given back if the command held it, and no other command changes |
| LinkProgress.EndingsAreFinal | gateway/noob_gateway/serial_link.py:220-268 | What has ended keeps its outcome in every later state, and no line of it takes the wire any more |
| LinkProgress.WireReachable | gateway/noob_gateway/serial_link.py:677-760 | Whatever holds of every reachable session holds of the session under the commands |
| Link.ChunksAreTheText | gateway/noob_gateway/serial_link.py:230-234 | The chunks of a text are the text, cut |
| Link.ChunksAreFull | gateway/noob_gateway/serial_link.py:230-234 | Every chunk but the last has 32 characters, so there is one for each 32 begun |
| Link.WireOperationsParse | pico/protocol.py:71-137 | Every wire operation derived from an accepted command is accepted by the Pico's parser, and its JSON line with the newline stays within the 1024 bytes of both ends for every session id and number |
| WireLines.LinesArriveWhole | gateway/noob_gateway/serial_link.py:704-724 | Any list of lines the gateway sends is framed by the Pico's receiver as exactly those lines: none cut, joined or too long, whatever characters a text holds |
| WireLines.TextPrintable | gateway/noob_gateway/serial_link.py:711-719 | The JSON text of any line is printable ASCII, so it holds no newline |
| Commands.SplitMouseMove | gateway/noob_gateway/serial_link.py:96-120 | The reports are signed bytes, add up to the movement, are as many as `mouse_move_chunk_count` says and at most eight; refused exactly beyond the batch limit |
| Commands.CountIsQuotient | gateway/noob_gateway/models.py:149-155 | The number of reports of the splitting loop is `mouse_move_chunk_count` |
| Receiver.FramesOfJoined | pico/code.py:273-294 | Framing inverts joining: exactly the non-empty lines within 1024 bytes are delivered, an overlong one only as a complaint |
| Receiver.LineReceiver.Consume | pico/code.py:273-294 | However the stream is cut into reads, the lines delivered are those of the whole stream, and the buffer never exceeds the bound |
| Pico.StepsKeepValid | pico/code.py:181-257 | Every line and timer tick keeps the held records covering what is down, and an idle Pico holding nothing |
| Pico.OnlyOwnSessionExecutes | pico/code.py:196-214 | Only a session line starts a session, and a line runs only inside its own |
| Pico.AnsweredAnew | pico/code.py:140-163 | A line not in the cache is answered under its own identifiers, acknowledged exactly if it ran to its end, and the answer is remembered |
| Pico.OnlyPressesHold | pico/code.py:217-257 | From nothing held, only a key or button press leaves something held |
| PicoEffects.KeyLineDoes | pico/code.py:217-230 | A key-up that ran leaves the key in neither report nor record; a key-down leaves it in the record, and, if it was not held, in the report with the time of the press; no other key and no button changes |
| PicoEffects.ButtonLineDoes | pico/code.py:236-257 | The same for buttons; a click leaves the button up and the record as it was |
| PicoEffects.OtherLineDoes | pico/code.py:214-257 | Text only lifts keys in the report, combos and releases leave nothing held, movement touches nothing held |
| PicoEffects.FailedLineDoes | pico/code.py:260-270 | A line whose HID call fails leaves nothing held and is refused, in the same session |
| PicoEffects.ForeignLineDoes | pico/code.py:205-212 | Without a session a line changes nothing held; a line of another session releases everything and ends the session; the refusals differ |
| PicoEffects.SessionBegins | pico/code.py:197-203 | A new session starts with nothing held, its own watchdog and a fresh clock |
| PicoEffects.KeysAreWhatWasPressed | pico/code.py:214-230 | Over all lines of a session: a key is in the record exactly if the last line that concerns it pressed it, with the time of that press, and down on the target exactly if no typed text has lifted it since |
| PicoEffects.ButtonsAreWhatWasPressed | pico/code.py:236-257 | The same for buttons over all lines of a session |
| PicoEffects.TimersReleaseExactly | pico/code.py:309-319 | A tick releases everything and ends the session exactly if the last line is longer ago than the watchdog or something was pressed more than ten seconds ago; otherwise it changes nothing |
| Pico.Firmware.ReleaseEverything | pico/code.py:98-104 | Clears everything held, in the record and on the bus |
| Pico.Firmware.CacheGet | pico/code.py:127-131 | The first cached answer of the session and number |
| Pico.Firmware.CachePut | pico/code.py:134-137 | First in, first out, sixteen entries |
| Pico.Firmware.AckCommand | pico/code.py:140-149 | Acknowledges and remembers the acknowledgement |
| Pico.Firmware.NackCommand | pico/code.py:152-163 | Refuses and remembers the refusal |
| Pico.Firmware.PressOrRelease | pico/code.py:220-230 | The key goes up in report and record, or down in both unless it was held already |
| Pico.Firmware.DriveButton | pico/code.py:244-257 | A button already held is not pressed again; a click leaves it up |
| Pico.Firmware.Execute | pico/code.py:181-257 | One accepted line is handled as the specification says: cached, session, foreign session, or run |
| Pico.Firmware.RejectLine | pico/code.py:260-270 | An unacceptable line releases everything and is answered without identifiers |
| Pico.Firmware.CheckTimers | pico/code.py:309-319 | Watchdog and held-too-long release everything and end the session |
| ControlLease.LatchIsHandedOver | gateway/noob_gateway/control_lease.py:42-105 | Time alone never loses an obligation: an expired lease is latched by every operation, and only `expire_if_needed` takes the latch, telling its caller |
| LeaseTiming.LeaseLastsExactly | gateway/noob_gateway/control_lease.py:48-75 | After a successful claim or renewal at a time, whatever is asked, tried or failed meanwhile, the lease is valid later exactly if that is less than the time to live after; then no call has moved the deadline, and afterwards a release is owed unless it was handed over |
| LeaseTiming.HolderDecides | gateway/noob_gateway/control_lease.py:48-83 | The holder renews in time and releases without owing anything, and meanwhile nobody else claims |
| ControlLease.ControlLease.TransitionExpired | gateway/noob_gateway/control_lease.py:42-46 | A lease that ran out becomes the release latch |
| ControlLease.ControlLease.Claim | gateway/noob_gateway/control_lease.py:48-60 | Grants only without a lease and without an owed release |
| ControlLease.ControlLease.Renew | gateway/noob_gateway/control_lease.py:62-68 | Extends only the presented lease, after expiry was noticed |
| ControlLease.ControlLease.Validate | gateway/noob_gateway/control_lease.py:70-75 | Accepts only the live lease |
| ControlLease.ControlLease.Release | gateway/noob_gateway/control_lease.py:77-83 | Ends only the presented lease |
| ControlLease.ControlLease.ForceClear | gateway/noob_gateway/control_lease.py:85-91 | Clears lease and latch, telling whether there was either |
| ControlLease.ControlLease.ExpireIfNeeded | gateway/noob_gateway/control_lease.py:93-105 | Hands the latch to the caller |
| ControlLease.ControlLease.MarkReleaseRequired | gateway/noob_gateway/control_lease.py:107-113 | Latches the obligation |
| ControlLease.ControlLease.Snapshot | gateway/noob_gateway/control_lease.py:115-124 | Reports activity and remaining time after expiry was noticed |
| SerialLink.SerialLink.OpenSession | gateway/noob_gateway/serial_link.py:283-322 | A fresh session id, and the session line waiting as number zero |
| SerialLink.SerialLink.DrawNumber | gateway/noob_gateway/serial_link.py:505-509 | The next number, skipping zero |
| SerialLink.SerialLink.DrawNumbers | gateway/noob_gateway/serial_link.py:505-509 | Each number is the one after the one before, across the 32-bit wrap too; short of it they are consecutive |
| SerialLink.SerialLink.QueueExchange | gateway/noob_gateway/serial_link.py:511-541 | One fresh number per operation, then the wait for the wire lock; draws that wrap the counter are left out |
| SerialLink.SerialLink.TakeWireLock | gateway/noob_gateway/serial_link.py:684-703 | Its lines become the latest issued |
| SerialLink.SerialLink.WriteUnanswered | gateway/noob_gateway/serial_link.py:704-720 | Every unanswered line of the exchange is written once more, in order |
| SerialLink.SerialLink.DispatchResponse | gateway/noob_gateway/serial_link.py:395-489 | A response of the current session resolves the one line waiting for its number, once |
| SerialLink.SerialLink.FinishExchange | gateway/noob_gateway/serial_link.py:740-760 | The acknowledged exchange gives the lock back |
| SerialLink.SerialLink.AbortOlder | gateway/noob_gateway/serial_link.py:273-281 | Every older stamp dies before anything is written |
| SerialLink.SerialLink.MarkTransportUnhealthy | gateway/noob_gateway/serial_link.py:324-337 | The first fault of a connection clears readiness and every stamp dies; later ones change nothing |
| SerialLink.SerialLink.CloseSession | gateway/noob_gateway/serial_link.py:303-322 | The session is over |
| GatewayRuntime.GatewayRuntime.BeginRelease | gateway/noob_gateway/app.py:343-354 | The release is stamped with the generation it has just opened |
| GatewayRuntime.GatewayRuntime.ReleaseExpiredInput | gateway/noob_gateway/app.py:330-341 | An owed release is taken over and started before the handler goes on |
| GatewayRuntime.GatewayRuntime.ClaimLease | gateway/noob_gateway/app.py:529-555 | The grant is recorded where the Pico's log stands |
| GatewayRuntime.GatewayRuntime.HandleClaim | gateway/noob_gateway/app.py:529-563 | Refused while video switches; expired input is released first, also when the claim itself notices it; no grant while local controls are armed or grabbed |
| GatewayRuntime.GatewayRuntime.HandleRenew | gateway/noob_gateway/app.py:565-581 | Expired input is released first; renewal, or release of what has expired meanwhile |
| GatewayRuntime.GatewayRuntime.HandleRelease | gateway/noob_gateway/app.py:583-601 | Expired input is released first; the lease ends and its release starts |
| GatewayRuntime.GatewayRuntime.AllowInput | gateway/noob_gateway/app.py:604-616 | Invalid commands cost nothing, valid ones are charged to the rate limiter |
| GatewayRuntime.GatewayRuntime.HandleInput | gateway/noob_gateway/app.py:604-627 | Only valid commands within the rate, after expired input was released, and only for the live lease; stamped with the current generation |
| GatewayRuntime.GatewayRuntime.HandleLocalSubmit | gateway/noob_gateway/app.py:365-398 | Validation and rate limit, refused while video switches, expired input first; the local lease is renewed or claimed, never taken from another controller |
| GatewayRuntime.GatewayRuntime.HandleLocalRelease | gateway/noob_gateway/app.py:407-423 | Expired input is released first; only the local lease is released |
| GatewayRuntime.GatewayRuntime.HandleArm | gateway/noob_gateway/app.py:425-436 | Refused while video switches; expired input first; arming goes on only without a foreign lease |
| GatewayRuntime.GatewayRuntime.HandleVideoSwitch | gateway/noob_gateway/app.py:441-460 | Expired input first; switching starts only without lease, armed controls and exclusive grab |
| GatewayRuntime.GatewayRuntime.HandleStatus | gateway/noob_gateway/app.py:506-512 | A status request that notices an owed release starts it |
| GatewayRuntime.GatewayRuntime.EmergencyRelease | gateway/noob_gateway/app.py:648-658 | Whoever holds the lease loses it and all older stamps die |
| GatewayRuntime.GatewayRuntime.Invalidate | gateway/noob_gateway/app.py:356-363 | After an unknown outcome the lease is gone and a release is started |
| GatewayRuntime.GatewayRuntime.ReleaseFailed | gateway/noob_gateway/app.py:343-354 | A release that failed or was cancelled is owed again |
| MediaTheorems.CancellationIsFinal | camera/main/media_store.cpp:730-808 | After an accepted cancellation, in every later state the job is not published, not queued, running or complete, and its recording neither listed nor on the card, whatever the worker, other requests, power loss and reboots do |
| MediaTheorems.CancellationIsAccepted | camera/main/media_store.cpp:781-808 | A cancellation is accepted exactly while the job is active, or was cancelled before |
| MediaTheorems.ActiveJobIsRemembered | camera/main/media_store.cpp:810-822 | The active job is always the newest of at most eight remembered jobs, all others ended |
| MediaTheorems.CompleteMeansPublishedIffFrames | camera/main/media_store.cpp:730-775 | A job that reports completion was published exactly when it had written a frame |
| MediaTheorems.EmptyClipCompletes | camera/main/media_store.cpp:748-768 | The exception is reachable: a clip whose deadline passes before its first frame reports completion with nothing published |
| MediaTheorems.RebootFindsTheList | camera/main/media_store.cpp:277-314 | The scan after power loss between any two steps finds exactly the list that was in memory |
| MediaTheorems.SnapshotSurvivesPowerLoss | camera/main/media_store.cpp:486-515 | Power loss while a snapshot is stored: the scan finds the old list, and the snapshot exactly if its rename happened |
| MediaTheorems.ClipSurvivesPowerLoss | camera/main/media_store.cpp:711-744 | The same for a clip, whose manifest the scan accepts |
| MediaTheorems.ItemsAscend | camera/main/media_store.cpp:340-350 | Items ascend strictly by number, all below the next one, in every reachable state |
| MediaTheorems.RetentionIsShortest | camera/main/media_store.cpp:957-982 | Retention removes the shortest run of oldest items after which the limits hold, unless a removal fails first |
| MediaTheorems.RetentionRemovesThose | camera/main/media_store.cpp:972-981 | Nothing else leaves the card |
| MediaEffects.DeletionDeletes | camera/main/media_store.cpp:885-906 | In reachable states: `Done` exactly if the id was listed and its files could be removed; then no item has the id, its directory is off the card, every other item keeps its place and every other directory its files; otherwise the list stays |
| MediaEffects.DeletionIsFinal | camera/main/media_store.cpp:885-906 | In every later state, whatever is stored, lost, rebooted or scanned, a deleted id is not listed, its directory not on the card, and no scan lists it |
| MediaEffects.SnapshotIsStoredExactly | camera/main/media_store.cpp:448-524 | A snapshot is stored exactly if the camera is on, verified and at the expected generation before and after, the frame fresh, the card writable with room, no clip under way, and the card keeps it |
| MediaEffects.SnapshotIsNewest | camera/main/media_store.cpp:486-521 | A stored snapshot is listed as the newest item with its frame's size and number, and what is missing are the oldest items, until the limits hold |
| MediaEffects.ClipIsStartedExactly | camera/main/media_store.cpp:526-597 | A clip is accepted exactly if length, rate, camera, card, room and worker allow it; if only the worker is missing the job is remembered as failed |
| MediaEffects.ClipIsQueued | camera/main/media_store.cpp:554-597 | An accepted clip is the active job and the newest record, queued for duration times rate frames, rounded down, at least one and at most 150 |
| MediaEffects.ProgressIsReported | camera/main/media_store.cpp:681-693 | After each frame the newest record says how far the worker is, unless the job was cancelled |
| MediaEffects.ClipIsNewest | camera/main/media_store.cpp:730-775 | A clip with frames that was not cancelled becomes the newest item with as many frames as were written, and its job is complete under the item's id |
| MediaEndings.ClipEndsAsItWent | camera/main/media_store.cpp:730-775 | A job ends complete if nothing failed and nobody cancelled it, cancelled if somebody did, failed otherwise; a clip that does not complete leaves no partial directory unless that could not be removed |
| MediaEndings.RecordingErrorFails | camera/main/media_store.cpp:640-680 | An error while recording makes the job fail with that error, unless it was cancelled |
| MediaEndings.CancellationStopsRecording | camera/main/media_store.cpp:781-808 | Over any run after an accepted cancellation the worker writes at most the frame it had in hand |
| MediaEndings.FailedCardIsLeftAlone | camera/main/media_store.cpp:316-338 | A card that failed once stores no snapshot and starts no clip until the next boot |
| MediaEndings.BootClears | camera/main/media_store.cpp:219-314 | After a boot no partial directory is left but those that could not be removed, the listed items meet the limits, and no number below the stored one is given again |
| MediaPaging.TraversalIsComplete | camera/main/media_store.cpp:845-868 | Following the cursor through a changing store delivers items newest first, none twice, none newer than the start, and every item listed throughout |
| MediaPaging.DeletedCursorEndsTheTraversal | camera/main/media_store.cpp:852-858 | The condition on cursors is needed: a cursor whose item is gone ends the traversal |
| MediaPaging.RunEvolves | camera/main/media_store.cpp:845-868 | Over any run, listed items are old ones or newer than all old ones, under ids of their own |
| MediaSafety.ClipLoads | camera/main/media_store.cpp:370-446 | A committed clip manifest meets every check of the loader |
| MediaSafety.ClipDuration | camera/main/media_store.cpp:554-560 | A clip's reported duration never exceeds the one asked for, at any frame rate, and its frames the maximum |
| MediaSafety.SnapshotLoads | camera/main/media_store.cpp:415-421 | A committed snapshot manifest meets every check of the loader |
| MediaSafety.ScanFinds | camera/main/media_store.cpp:277-314 | In whatever order the directory is read, the scan lists the loadable directories in number order |
| MediaSafety.StepKeeps | camera/main/media_store.cpp:526-822 | Every step of requests, worker, power loss and reboot keeps list, card, jobs and worker consistent |
| MediaStore.Store.UpdateJobRecord | camera/main/media_store.cpp:810-822 | In place, or newest of eight |
| MediaStore.Store.RefreshCapacity | camera/main/media_store.cpp:316-338 | A card that does not answer is not written any more |
| MediaStore.Store.TooMuch | camera/main/media_store.cpp:959-970 | The limits, over the bytes of all items |
| MediaStore.Store.EnforceRetention | camera/main/media_store.cpp:957-982 | The loop is the specified retention |
| MediaStore.Store.StoreSnapshotFile | camera/main/media_store.cpp:448-524 | Guards in order, then stored, retained and listed, or lost |
| MediaStore.Store.StartClipJob | camera/main/media_store.cpp:526-597 | Guards in order, then a queued job and its worker |
| MediaStore.Store.BeginClip | camera/main/media_store.cpp:606-624 | The worker starts from the remembered record |
| MediaStore.Store.ReportFrame | camera/main/media_store.cpp:681-693 | Progress is remembered unless the job is cancelled |
| MediaStore.Store.DiscardPartial | camera/main/media_store.cpp:755-766 | A failed recording is removed and its job failed or cancelled |
| MediaStore.Store.CommitClip | camera/main/media_store.cpp:736-751 | Manifest, rename and list, or failure |
| MediaStore.Store.PublishClip | camera/main/media_store.cpp:730-775 | Cancellation and publication in one section |
| MediaStore.Store.Cancel | camera/main/media_store.cpp:781-808 | Marks only the active job |
| MediaStore.Store.Remove | camera/main/media_store.cpp:885-906 | Removes the directory, then the item |
| MediaStore.Store.List | camera/main/media_store.cpp:845-868 | One page and the next cursor |
| MediaStore.Store.ScanMedia | camera/main/media_store.cpp:277-314 | Partial directories go, loadable ones are listed in order |
| MediaStore.Store.Mount | camera/main/media_store.cpp:219-275 | Memory restarts from the card and the stored number |
| LocalInput.KeyEventsKeep | gateway/noob_gateway/local_input.py:426-463 | Every key event keeps pending and forwarded keys disjoint subsets of the physical ones and the chord incomplete, unless it completes it |
| LocalChord.ChordHeldBackExactly | gateway/noob_gateway/local_input.py:426-470 | For every list of key events since arming after which one press completes the chord: nothing of the chord is down on the target exactly if no ordinary key freshly went down behind the press of a chord key that is still held |
| LocalChord.ReachedExactly | gateway/noob_gateway/local_input.py:438-470 | At any moment before, a held chord key has reached the target exactly if an ordinary key went down behind its press |
| LocalChord.OrdinaryKeySendsChordMember | gateway/noob_gateway/local_input.py:442-453 | The exception is reachable: after the presses Control, A, Alt the next press Escape completes the chord with Control down on the target |
| LocalChord.OrdinaryKeysAreForwarded | gateway/noob_gateway/local_input.py:438-463 | For all lists of key events an ordinary key is down on the target exactly while it is held |
| LocalChord.OrdinaryPressSends | gateway/noob_gateway/local_input.py:442-470 | When an ordinary key goes down, exactly the held chord keys that no ordinary key has overtaken are pressed, in the order they went down, and then the key itself |
| LocalChord.OtherEventsSend | gateway/noob_gateway/local_input.py:438-463 | A chord key's press sends nothing; a lift taps a key held back, lifts one that reached the target, and does nothing for one that was not down |
| LocalInput.AlternatingIsBalanced | gateway/noob_gateway/local_input.py:472-482 | A control whose events alternate has as many presses as lifts, but for a last press |
| LocalInput.LocalInputManager.NothingSticks | gateway/noob_gateway/local_input.py:426-553 | While armed with no control held, nothing is down on the target, every press was lifted, and unclamped motion arrived in full |
| LocalInput.LocalInputManager.HandleKeyboard | gateway/noob_gateway/local_input.py:426-463 | The commands of the event in order, or a part of them and disarmed; the chord-completing press submits nothing and disarms; at no moment is the chord down on the target |
| LocalInput.LocalInputManager.FlushPendingChord | gateway/noob_gateway/local_input.py:465-470 | Held-back keys go out in the order pressed |
| LocalInput.LocalInputManager.ForwardKey | gateway/noob_gateway/local_input.py:472-482 | One press or lift, alternating per key |
| LocalInput.LocalInputManager.HandleButton | gateway/noob_gateway/local_input.py:499-532 | A press of a button that is up and a lift of one that is down are submitted once each, anything else submits nothing |
| LocalInput.LocalInputManager.HandlePointer | gateway/noob_gateway/local_input.py:484-532 | Case by case: `REL_X` and `REL_Y` each add to their own axis, within the clamp, and change nothing else; a report still armed leaves no motion and sends exactly what was pending; codes 272, 273 and 274 press and lift left, right and middle, once; anything else changes nothing |
| LocalInput.LocalInputManager.Accumulate | gateway/noob_gateway/local_input.py:487-498 | The named axis, and no other, grows by the value, within the clamp |
| LocalInput.LocalInputManager.FlushMotion | gateway/noob_gateway/local_input.py:534-553 | Pieces within the axis limit, at most five, add up to the motion |
| LocalInput.LocalInputManager.Submit | gateway/noob_gateway/local_input.py:555-568 | A refused submission disarms |
| LocalInput.LocalInputManager.ReleaseAfterIdle | gateway/noob_gateway/local_input.py:585-601 | Asks for the release exactly if nothing is held or pending, and stays armed exactly if that is confirmed |
| LocalInput.LocalInputManager.Disarm | gateway/noob_gateway/local_input.py:603-650 | Forgets everything held and pending |
| LocalInput.LocalInputManager.Arm | gateway/noob_gateway/local_input.py:311-342 | Starts empty, in a new generation |
| JpegStream.ChunkingDoesNotMatter | gateway/noob_gateway/video.py:63-95 | When every image and the unfinished tail fit the limit, any way of cutting the stream into calls delivers the images of the whole stream and drops nothing |
| JpegStream.ChunkingMattersPastTheLimit | gateway/noob_gateway/video.py:79-89 | An input whose two cuts deliver different frames |
| JpegChunking.ChunkingMattersExactly | gateway/noob_gateway/video.py:63-95 | For every stream and limit: the frames are the same for all ways of cutting it into calls exactly if of each image longer than the limit plus one the first start marker among its last limit plus one bytes, if any, is at the very start of them |
| JpegChunking.SettledRuns | gateway/noob_gateway/video.py:63-95 | For such streams any calls deliver exactly the images within the limit |
| JpegChunking.ByteRuns | gateway/noob_gateway/video.py:79-89 | Byte by byte, for any stream: each image is delivered from the first start marker that leaves at most one byte over the limit, if that fits |
| JpegChunking.DroppedAreCounted | gateway/noob_gateway/video.py:63-95 | A call counts each image it does not deliver and the unfinished one it gives up |
| JpegStream.RunsDeliverSpans | gateway/noob_gateway/video.py:63-95 | On any input in any pieces, frames are in-order, non-overlapping spans from a start marker to its first end marker within the limit, and the retained buffer is the end of the input |
| JpegStream.ImagesSplit | gateway/noob_gateway/video.py:63-95 | A stream may be cut anywhere: its images are those so far, then those of the tail with the rest |
| JpegStream.JPEGStreamParser.FeedBytes | gateway/noob_gateway/video.py:63-95 | The loop over the buffer delivers, retains and drops as specified |
| JpegHeader.HeaderRoundTrip | gateway/noob_gateway/video.py:103-141 | Any well-formed segments with fill bytes before a frame header of positive size: exactly that size is read (ITU-T T.81, sections B.1.1 and B.2.2) |
| JpegHeader.DimensionsExactly | gateway/noob_gateway/video.py:103-141 | A size is reported exactly for data of that shape |
| JpegHeader.JpegDimensions | gateway/noob_gateway/video.py:103-141 | Terminates in bounds on any bytes and computes the specified walk |
| VideoTheorems.FramesAreCurrent | gateway/noob_gateway/video.py:589-629 | A published frame is of the current generation, has the size of the active, negotiated profile and at most its bytes |
| VideoTheorems.GenerationsGrow | gateway/noob_gateway/video.py:589-612 | Over any run generations only grow, one for each committed session |
| VideoTheorems.OneSupervisor | gateway/noob_gateway/video.py:457-477 | Until the stop begins at most one capture supervisor exists, one let go and still ending included, and whenever a switch or rollback starts one every other is over; at no time do two run |
| VideoTheorems.StopIsFinal | gateway/noob_gateway/video.py:487-514 | Once the stop has begun no session is committed and no frame published any more, although a waiting call may still start a supervisor |
| VideoTheorems.OutcomesAreTrue | gateway/noob_gateway/video.py:354-434 | `select_mode` returns only if the profile was live or the last session, committed during the call, has it; it reports a rollback only if the last session, committed during the call, has the previous profile, which is the one live before the call |
| VideoTheorems.RollbackKeepsTheRequestVisible | gateway/noob_gateway/video.py:394-434 | A reported rollback leaves the previous profile wanted and the failed request visible |
| VideoTheorems.FailureLeavesNothing | gateway/noob_gateway/video.py:418-428 | After a failed rollback no supervisor runs and no frame is published |
| VideoProgress.FrameIsPublishedExactly | gateway/noob_gateway/video.py:614-629 | In every reachable state a frame handed over by the session's supervisor is published, as the latest one, next in sequence, under the current generation, exactly if the profile allows its bytes; a larger one changes nothing |
| VideoProgress.CommitIsVisible | gateway/noob_gateway/video.py:589-612 | A first good frame makes its profile active with that frame as the latest, one generation on, and tells whoever waits |
| VideoProgress.SwitchCanSucceed | gateway/noob_gateway/video.py:354-393 | From every reachable state without a call before the stop, a switch can let the old supervisor end, start one for the target and return with the target active and its first frame published |
| VideoProgress.RollbackCanSucceed | gateway/noob_gateway/video.py:394-417 | From every reachable state before the stop in which the wait for the target fails, the previous profile can be started again and the rollback reported |
| VideoProgress.GivingUpIsSeen | gateway/noob_gateway/video.py:354-434 | A supervisor that gives up is seen by whoever waits for it, who can then only go the way of failure |
| VideoProgress.LiveProfileStays | gateway/noob_gateway/video.py:354-372 | Selecting the live profile interrupts nothing |
| VideoProgress.EndingsClear | gateway/noob_gateway/video.py:479-485 | Whatever ends a session also ends what is published of it |
| VideoProgress.StopShowsNothing | gateway/noob_gateway/video.py:487-514 | Once the stop has come to its end nothing is published in any later state |
| Video.V4L2Capture.CommitSession | gateway/noob_gateway/video.py:589-612 | A session is a new generation with its profile, mode and first frame |
| Video.V4L2Capture.Publish | gateway/noob_gateway/video.py:614-629 | Frames over the profile's bytes and frames of a profile that is not active are refused; others are published under the current generation |
| Video.V4L2Capture.InvalidateFrames | gateway/noob_gateway/video.py:479-485 | Nothing stays published |
| EnvironmentCamera.GenerationsNameOnePair | gateway/noob_gateway/environment_camera.py:856-872 | A public generation names one boot and remote generation for all time and never decreases |
| EnvironmentCamera.StaleResponsesChangeNothing | gateway/noob_gateway/environment_camera.py:857-861 | A late response of the same boot never rolls the state back |
| EnvironmentCamera.FramesWereAskedForCurrent | gateway/noob_gateway/environment_camera.py:957-992 | A frame published under a generation was requested while it was current, of the pair it names; sequences strictly grow |
| EnvironmentCamera.LatestIsCurrent | gateway/noob_gateway/environment_camera.py:856-872 | The frame offered is of the current generation |
| EnvironmentCamera.MutationsMeanWhatWasExpected | gateway/noob_gateway/environment_camera.py:1143-1194 | A mutation carries the remote generation the client's public one names, still current when the answer is applied |
| EnvironmentCamera.PublicCountsChanges | gateway/noob_gateway/environment_camera.py:856-872 | In reachable states a status that repeats boot and generation keeps the public generation, the epoch and the latest frame; a different, not stale pair makes it one larger and drops the frame; the first brings its own number |
| EnvironmentCamera.FrameIsPublishedExactly | gateway/noob_gateway/environment_camera.py:957-992 | A frame is published, as the latest under the current generation and a new number, exactly if the camera is on and the frame's epoch is not over |
| EnvironmentCamera.AnswerIsApplied | gateway/noob_gateway/environment_camera.py:1161-1193 | An answer as asked and not stale sets what the camera shows; any other changes nothing of the camera |
| EnvironmentCamera.DistrustEndsRequests | gateway/noob_gateway/environment_camera.py:874-890 | After a distrusted status nothing is offered and no request already made can publish a frame |
| EnvironmentCamera.MutationBeginsExactly | gateway/noob_gateway/environment_camera.py:1143-1160 | A client may mutate exactly with the current public generation, alone and once a camera is known; the camera is sent its own current generation |
| EnvironmentCamera.EnvironmentCamera.UpdateRemoteGeneration | gateway/noob_gateway/environment_camera.py:856-872 | Stale, same, or a new public generation |
| EnvironmentCamera.EnvironmentCamera.ApplyStatus | gateway/noob_gateway/environment_camera.py:932-951 | A valid status under the lock |
| EnvironmentCamera.EnvironmentCamera.InvalidateAuthenticatedStatus | gateway/noob_gateway/environment_camera.py:874-890 | A distrusted status ends the epoch |
| EnvironmentCamera.EnvironmentCamera.PublishFrame | gateway/noob_gateway/environment_camera.py:957-992 | Refused when its epoch is over |
| EnvironmentCamera.EnvironmentCamera.ApplySwitch | gateway/noob_gateway/environment_camera.py:1161-1193 | The camera's answer, unless contradictory or stale |
| CameraContract.ReportsAreAcceptedExactly | gateway/noob_gateway/environment_camera.py:203-305 | The gateway accepts the report of every reachable camera state exactly when initialised PSRAM has a size and the generation fits its bound |
| CameraContract.SizelessPsramIsRefused | camera/main/camera_manager.cpp:97-104 | The exception is reachable: PSRAM that initialises with size zero is reported and refused |
| CameraContract.ReportPasses | camera/main/api_server.cpp:503-575 | Sensor, size, freshness and enabled checks pass in every reachable state |
| CameraContract.SwitchingIsANewGeneration | camera/main/camera_manager.cpp:239-269 | Whenever the camera goes on or off the generation is new, a request with an outdated one changes nothing, and no image outlives its generation |
| CameraContract.FramesHandedOutAreSound | camera/main/camera_manager.cpp:278-292 | Frames handed out are whole images of the one supported size |
| CameraContract.SwitchObeys | camera/main/camera_manager.cpp:239-269 | At the current generation, off leaves the sensor off with nothing to hand out, on leaves it on exactly if it was or a supported sensor answers, and what is so already stays with its generation |
| CameraContract.CapturedIsHandedOut | camera/main/camera_manager.cpp:323-353 | A whole image of the one size captured while the sensor is on is what is handed out next; anything else leaves what was handed out |
| CameraContract.ProbeStandsByOnce | camera/main/camera_manager.cpp:360-365 | After the probe frame the camera goes to standby once, unless told to stay on |
| CameraContract.BootCaptures | camera/main/camera_manager.cpp:97-140 | The camera comes up enabled exactly with PSRAM of some size, its capture task and a supported sensor |
| CameraContract.CapturedIsReported | camera/main/api_server.cpp:503-575 | A captured frame is reported with its size and age, as fresh for two seconds |
| CameraContract.CameraManager.InitializeSensor | camera/main/camera_manager.cpp:142-219 | Enabled only with a supported sensor |
| CameraContract.CameraManager.DeinitializeSensor | camera/main/camera_manager.cpp:221-237 | Size, time and image are forgotten |
| CameraContract.CameraManager.Switch | camera/main/camera_manager.cpp:239-269 | Only at the expected generation |
| CameraContract.CameraManager.CaptureFrame | camera/main/camera_manager.cpp:323-353 | Only a whole image of the one size is kept, and verifies the pin map |
| CameraContract.CameraManager.StandBy | camera/main/camera_manager.cpp:360-365 | Back to standby after the probe frame unless told to stay on |
| TokenBucket.AdmitsAtMost | gateway/noob_gateway/rate_limit.py:20-31 | Over any stretch of calls, whatever came before, at most the burst plus the rate times the elapsed time is admitted |
| TokenBucket.AdmittedExactly | gateway/noob_gateway/rate_limit.py:20-31 | A call is admitted exactly if its cost is positive, within the burst, and covered by what was left and what the rate has added since; a refused one costs nothing |
| TokenBucket.WaitingHelps | gateway/noob_gateway/rate_limit.py:20-31 | After the time that fills the bucket any call within the burst is admitted |
| TokenBucket.Bucket.Allow | gateway/noob_gateway/rate_limit.py:20-31 | Refill, cap and charge |

## Left out

- Real I/O: pyserial, `v4l2-ctl`, aiohttp, evdev, FreeRTOS, ESP drivers, NVS, mDNS and SSH appear as steps with arbitrary answers.
- JSON reading: lines are written as text in `WireLines`, but parsing one back, responses, and manifests are values; byte sizes of manifests (the loader reads 1023 bytes) are not modelled.
- SerialLink.SerialLink.QueueExchange: an exchange whose numbers wrap the 32-bit counter is excluded, as is `Request` in Wire, because after a wrap a line may share session and number with an older one: answered from the cache it would be acknowledged without being executed, so `AcknowledgedExactlyOnce` needs the bound; `SequenceRepeatsExactly` says when it ends, and `DrawNumbers` covers the wrap.
- HID library internals: `KeyboardLayoutUS.write` and `mouse.click` may only release keys.
- Liveness and deadlock freedom of the runtime with local input: arming takes the control gate before the event lock, local events the other way round; safety and what each step does are stated.
- Scheduling fairness: it is proved that exchanges, commands, sessions, mode switches and rollbacks can succeed from every reachable state they may begin in, not that they must.
- RuntimeTheorems.OwnershipIsExclusive: does not model `exclusive_grab`, which only refuses more; the handlers of `GatewayRuntime` take it as a parameter.
- RuntimeTheorems.LeaseIsolation: admitted commands may put any lines on the wire under their stamp, which covers more than the handlers do; gateway shutdown is not a step.
- GatewayRuntime: a handler suspended in a release or in arming is a value of `gate`; the coroutine that waits is not an object.
- MediaStore: `clip_task`'s loop is a sequence of worker steps, because other tasks run between its sections; the loop counter is the number of frames written.
- Crash consistency of deletion: `remove_tree_locked` unlinks file by file; a removal that failed part of the way marks its directory, and the crash theorems speak of cards without such a mark.
- Store state strings and error texts shown to operators, and `valid_media_id` and `valid_job_id`: they decide nothing else.
- Agreement of clips with the gateway's `_media_item`: a clip cut short can be shorter than the second the gateway insists on.
- LocalInput: a task cancelled inside a submission, device reconnection and the evdev record format are not modelled.
- A fixed bound on the parser's buffer: it resynchronises once a call, so none holds for dense input.
- Video: stderr, process termination and the stale-frame clock; a frame's age is an arbitrary reading.
- EnvironmentCamera: storage and media requests of the gateway, and the camera's own check of an expected generation across a reboot.
- Operator console, Electron, plugin, provisioning, configuration files, tokens: wrappers or one-branch validation.
