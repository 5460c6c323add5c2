# Verification of the NocFree firmware's stateful core

A Dafny 4.11 model of five pieces of this repository, with proofs about every input, every run
and every interleaving. `dafny verify dfyconfig.toml` checks the project.

| files | what they model |
|---|---|
| `HidQueue.dfy`, `HidDrain.dfy` | the dongle's USB report queue: a 48-slot drop-oldest ring, and the drain that three threads enter through a try-lock |
| `AdParser.dfy` | which advertising payloads the dongle connects to |
| `HogSession.dfy`, `HogLink.dfy`, `HogRuns.dfy`, `HogReady.dfy`, `HogCurrent.dfy`, `HogLateRead.dfy`, `HogEffects.dfy`, `HogClient.dfy` | the dongle's HOG client: discovery, report references, subscription, the connection pointer, resets and the reconnect tick |
| `ModeSwitch.dfy`, `ModeEffects.dfy`, `ModeSwitchClient.dfy` | the left half's output switch: debounce, reboot on change, kick bursts, bond watchdog |
| `Uf2Rescue.dfy`, `Uf2Format.dfy`, `Uf2Flash.dfy` | the tool that turns a bootloader read-back into a flashable image, and what flashing that image writes |
| `BacklightSync.dfy`, `BacklightSyncWorker.dfy` | mirroring the backlight to the peripherals over a channel that loses commands |
| `Bytes.dfy` | octets and small shared types |

The code being mostly statics that callbacks update in place, each part has two layers. A class
(`HidQueue.Queue`, `HogClient.Client`, `ModeSwitchClient.Switch`, `BacklightSyncWorker.Worker`)
holds the statics and has a method for each function of the source that moves them, loops and all,
long ones cut into several; each method is proved to move the abstract state as one function says.
The theorems are about those functions, over runs: sequences of events in any order, with the rest
of the system (the Bluetooth stack, the USB endpoint, ZMK, the clock) answering anything at all. An
event that cannot occur changes nothing, or is allowed for anyway, so the theorems quantify over all
sequences without side conditions. The drain protocol is a state machine of its own, with a program counter for each thread and one step for each
spinlock section, mutex operation and endpoint write; `HidDrain.SoloDrain` ties it to the class.
`HogEffects` and `ModeEffects` say of every event what it does to each field, in terms of the event
and of literal numbers and not of the handlers.
`parse_blocks` and `build`, which are loops over local lists, are methods; the comprehensions
between them are functions.

## What the proofs brought out

Where a promise fails as the code stands, the code is modelled as it is, a lemma exhibits the
failure, and the promise is proved together with the exact condition that was found.

- A GATT callback that belongs to an earlier session, or comes after a dead connection's pointer was
  dropped, is not recognised as such. Three kinds of step then make ready say more than is true: a
  CCC success booked on an input other than the one written
  (`HogLateRead.LateReadConfirmsWrongInput`), a reference that arrives when ready and makes another
  input wanted (`ReadUnderReady`), and a callback that ends the pass of a dropped connection
  (`OrphanDeclaresReady`, `OrphanOccurs`). Each occurs in a run from boot and has its guard, and a
  run keeps every flag true exactly when it takes none of these steps (`HogReady.HonestExactly`);
  then ready is sound (`HogReady.ReadyIsSound`). Runs whose callbacks all answer the current session
  are among them (`HogCurrent.CurrentNeverMisleads`).
- A late report-reference read that arrives while no input is known makes the client declare ready
  with nothing subscribed, refuse to start discovery on the next link and count every tick with the
  link up as healthy, until the link drops or a reset comes (`HogLateRead.EmptyReadyIff`,
  `EmptyReadyOccurs`; `FakeReadyStep` has the exact list).
- The comment at ble_hog_central.c:918-924 says a bt_enable whose callback never comes is retried
  after about 30 s. After a hard reset whose bt_enable was accepted no tick is scheduled
  (`HogRuns.TickReschedules`); the events that bring the loop back are listed exactly
  (`WakesExactly`), and without one of them the client stays down for good (`StaysDown`).
- The comment at mode_switch.c:257-264 promises one bond clear for each unconnected episode; the
  code clears again every 10 to 20 ticks (`ModeSwitch.HealRate`), as its later comment says.
- A settings commit in the 2.4 GHz position clears the bond of whatever profile is active, so if
  ZMK refuses the dongle profile another host's bond is lost; nothing else can lose one
  (`ModeSwitch.ClearsOnlyDongle`, `RefusedCommitClearsHost`).
- The commit, and only the commit, looks at the contacts inside the debounce window
  (`ModeSwitch.OnlyCommitSamplesBounce`), and a bounce can make it clear the dongle's bond with the
  slider at Bluetooth (`BounceClearsBond`).
- The connect callback turns away a peer stored both in the dongle slot and in another one; the
  kick pass spares it (`ModeSwitch.TurnedAwayButNotKicked`).
- A backlight push that the transport takes only in part is forgotten when the central returns to
  the state pushed before: the peripheral then differs for good, even with a single peripheral
  (`BacklightSync.RevertedPushSticks`). Whether that is so can be read off the central: the poll sees
  no change and the commands accepted so far amount to another state (`ConvergesExactly`).
- The comment at tools/uf2_rescue.py:166 says blank blocks carry no information. In a dump whose
  blocks overlap a blank one can erase what an earlier one wrote, and dropping it changes the image
  (`Uf2Flash.OverlapBreaksTrimming`), exactly at the addresses `TrimmingExactly` describes.
- Overflow really can make a pop remove a report the endpoint never saw; the bound of 47 later
  reports cannot be improved (`HidDrain.DisplacedPopIsReal`).

## Assumptions

- Each stack callback and each run of a work handler is one atomic step; a deadline is a step
  enabled from its time on.
- The endpoint write does not call back into the drain on the same thread, so the reentrancy of
  `k_mutex` plays no part.
- A soft reset and a disconnect zero the subscription parameters, which cancels a CCC callback
  still pending; a report-reference read is not cancelled.
- Selecting a profile either succeeds and makes it active or fails and changes nothing;
  `zmk_ble_clear_bonds` clears the active profile's bond.
- The backlight commands do what the source's comment says: ON restores the peripheral's own
  level, SET pins the level, OFF turns off. Commands arrive in order while the link is up; any of
  them may be lost while it is down; every drop and every return of a link raises a status event,
  delivered at any later time.
- The switch is built with CONFIG_NOCFREE_MODE_SWITCH_REBOOT, debounce 30 ms, apply delay 50 ms,
  dongle profile 0 and Bluetooth profile 1.

## Model

| member | source | states |
|---|---|---|
| `HidQueue.MakeItem` | dongle_bridge/src/usb_hid_bridge.c:104-110 | a queued slot, put on the wire, is the report ID followed by exactly the bytes given; the rest of the slot is zero |
| `HidQueue.Queue.Push` | dongle_bridge/src/usb_hid_bridge.c:95-114 | the 48-slot ring refines a drop-oldest sequence: the report is appended, the oldest is removed and counted exactly when 48 were waiting, head stays (tail + count) mod 48 |
| `HidQueue.Queue.PeekCopy` | dongle_bridge/src/usb_hid_bridge.c:116-127 | returns the oldest waiting report and changes nothing; -EAGAIN exactly on an empty queue |
| `HidQueue.Queue.Pop` | dongle_bridge/src/usb_hid_bridge.c:129-137 | removes the oldest waiting report and no other, and nothing from an empty queue |
| `HidQueue.Queue.DrainLocked` | dongle_bridge/src/usb_hid_bridge.c:170-187 | the inner loop leaves exactly what DrainAlone says: queue, endpoint log, number of writes, transmit counter, and whether it stopped on a busy endpoint |
| `HidQueue.Queue.TryDrain` | dongle_bridge/src/usb_hid_bridge.c:155-195 | without a device or while another thread drains nothing happens; otherwise the whole drain, the lock released again and the re-check empty |
| `HidQueue.DrainAloneIsPrefix` | dongle_bridge/src/usb_hid_bridge.c:165-188 | an uninterrupted drain removes a prefix, stops only on an empty queue or a busy endpoint, writes each removed report once and sends exactly those answered with 0 |
| `HidQueue.Queue.Send` | dongle_bridge/src/usb_hid_bridge.c:227-247 | -ENODEV and no change without device or report, else the report is queued and, unless another thread drains, a whole drain follows; drops grows exactly when 48 were waiting |
| `HidQueue.Queue.SendKeyboard` | dongle_bridge/src/usb_hid_bridge.c:227-236 | eight bytes under report ID 1, and -19 without device or report |
| `HidQueue.Queue.SendConsumer` | dongle_bridge/src/usb_hid_bridge.c:238-247 | twelve bytes under report ID 2, and -19 without device or report |
| `HidQueue.KeysUp` | dongle_bridge/src/usb_hid_bridge.c:249-255 | the keyboard release is on the wire 1 and eight zeros |
| `HidQueue.ConsumerUp` | dongle_bridge/src/usb_hid_bridge.c:249-256 | the consumer release is on the wire 2 and twelve zeros |
| `HidQueue.Queue.ReleaseAll` | dongle_bridge/src/usb_hid_bridge.c:249-258 | those two, in that order; the verdict is the keyboard's |
| `HidQueue.Queue.Stats` | dongle_bridge/src/usb_hid_bridge.c:260-274 | the two counters modulo 2^32 and the number waiting, at most 48 |
| `HidDrain.PushKeepsInv` | dongle_bridge/src/usb_hid_bridge.c:95-114 | a push at any moment of anybody's drain keeps the whole protocol invariant |
| `HidDrain.AdvanceKeepsInv` | dongle_bridge/src/usb_hid_bridge.c:155-195 | so does every step of every drainer, whatever the endpoint answers |
| `HidDrain.Reachable` | dongle_bridge/src/usb_hid_bridge.c:95-195 | the invariant holds after every interleaving of any number of threads |
| `HidDrain.MutualExclusion` | dongle_bridge/src/usb_hid_bridge.c:153-189 | two threads are never both between try-lock and unlock |
| `HidDrain.Fifo` | dongle_bridge/src/usb_hid_bridge.c:155-195 | for every interleaving, the n-th write the endpoint took carried report accepted[n], and these indices are strictly increasing: in order, no report sent twice, even when overflow moves the tail between peek and pop |
| `HidDrain.LossBound` | dongle_bridge/src/usb_hid_bridge.c:95-187 | a report followed by fewer than 47 others is still waiting, being written, sent, or met a hard write error: neither eviction nor a displaced pop has lost it |
| `HidDrain.DisplacedPopIsReal` | dongle_bridge/src/usb_hid_bridge.c:99-137 | the bound is tight: an explicit two-thread run in which a pop removes a report the endpoint never saw, with exactly 47 later ones |
| `HidDrain.Conservation` | dongle_bridge/src/usb_hid_bridge.c:95-195 | pushes = transmitted + hard errors + drops + waiting, corrected by the one report between its write and its pop and counter update |
| `HidDrain.PopMeetsReport` | dongle_bridge/src/usb_hid_bridge.c:129-137 | no pop of the drain ever finds an empty queue |
| `HidDrain.LostAreCounted` | dongle_bridge/src/usb_hid_bridge.c:95-195 | the number of reports that left the queue unsent is drops + hard errors, even when overflow displaced a pop, up to the one pop still owed |
| `HidDrain.NoStranding` | dongle_bridge/src/usb_hid_bridge.c:155-195 | whenever a report waits, a thread holds the lock, or is on its way to a try-lock or re-check, or the last event to take or leave the lock left it through the busy return |
| `HidDrain.QuietMeansEmpty` | dongle_bridge/src/usb_hid_bridge.c:155-195 | with an endpoint never busy, an idle bridge has an empty queue and every report pushed was sent, failed or dropped |
| `HidDrain.GoBurnsFuel` | dongle_bridge/src/usb_hid_bridge.c:155-195 | every step of a thread inside the drain lowers a measure of the work left |
| `HidDrain.DrainsTerminate` | dongle_bridge/src/usb_hid_bridge.c:155-195 | no thread waits for another: if nobody enters, the threads inside take at most Fuel steps together, whatever the endpoint answers |
| `HidDrain.SoloDrain` | dongle_bridge/src/usb_hid_bridge.c:155-195 | a thread nobody disturbs does exactly what the sequential TryDrain promises |
| `HidDrain.EntryDrains` | dongle_bridge/src/usb_hid_bridge.c:155-247 | a ready callback that enters while nobody drains can run through and then leaves exactly what an undisturbed drain of the queue leaves, outside again and the lock free; so does a send, from the queue with its own report |
| `HidDrain.NextReadyEmpties` | dongle_bridge/src/usb_hid_bridge.c:174-201 | so over every run: whatever a busy return stranded, an idle bridge is emptied by the next ready callback if the endpoint is not busy then |
| `AdParser.ParseSerialise` | dongle_bridge/src/ble_hog_central.c:705-733 | parsing undoes serialising and continues with whatever follows (Bluetooth Core, Vol 3 Part C, section 11) |
| `AdParser.ParseIsMaximal` | dongle_bridge/src/ble_hog_central.c:705-712 | the structures parsed are the longest well-formed prefix: what follows is nothing, a zero length, or a structure past the end |
| `AdParser.NameTest` | dongle_bridge/src/ble_hog_central.c:714-722 | the 31-byte copy and the two strncmp calls decide exactly whether the name starts with NocFree, for names of any length |
| `AdParser.ListHasHids` | dongle_bridge/src/ble_hog_central.c:723-731 | the stepping loop finds 0x1812 exactly when it stands at an even offset; its 8-bit index never wraps |
| `AdParser.Examine` | dongle_bridge/src/ble_hog_central.c:712-731 | one structure counts as name or as HID list exactly when its type and data say so |
| `AdParser.AdIsNocfreeKeyboard` | dongle_bridge/src/ble_hog_central.c:697-748 | for every payload the loop stays in bounds, ends, and accepts exactly when the parsed structures contain such a name and such a list |
| `AdParser.AcceptedExactly` | dongle_bridge/src/ble_hog_central.c:714-748 | in literal bytes: accepted exactly when some name structure (8 or 9) starts N o c F r e e and some 16-bit list (2 or 3) holds 12 18 in a place of its own; both, not one |
| `AdParser.AcceptsSerialised` | dongle_bridge/src/ble_hog_central.c:697-748 | on any list of structures serialised and zero-padded, the code decides the predicate on that list |
| `HogSession.Owner` | dongle_bridge/src/ble_hog_central.c:425-441 | the descending search finds the last input whose value handle precedes the descriptor, or none |
| `HogSession.CharsCollected` | dongle_bridge/src/ble_hog_central.c:406-420 | the inputs are the first four notifying characteristics, in order |
| `HogSession.DescriptorsGoToOwners` | dongle_bridge/src/ble_hog_central.c:421-442 | whatever descriptors arrive in whatever order, each input ends up with the last CCC and the last report reference of its own handle range, and nothing else changes |
| `HogSession.DiscoveryFindsOwners` | dongle_bridge/src/ble_hog_central.c:421-442 | on a service laid out as the client expects every CCC and report reference goes to its owner |
| `HogSession.ReadChain` | dongle_bridge/src/ble_hog_central.c:279-320 | the mutually recursive chain reads each readable reference once, in order, terminates, and ends in one subscription pass |
| `HogSession.IdentifiesEach` | dongle_bridge/src/ble_hog_central.c:279-299 | each input gets the id and type of its own reference; without a reference it becomes the keyboard; a failed read leaves it alone |
| `HogSession.RefsStep` | dongle_bridge/src/ble_hog_central.c:448-462 | one turn of the chain: a read under way, the next input, or the subscription pass |
| `HogSession.NoReferenceMeansKeyboard` | dongle_bridge/src/ble_hog_central.c:377-384 | without any reference the first input is the keyboard and the pass begins |
| `HogSession.NothingFoundWaits` | dongle_bridge/src/ble_hog_central.c:330-338 | without the service, or without a report in it, the session stays as it is for the stalled ticks to end |
| `HogSession.PassEnds` | dongle_bridge/src/ble_hog_central.c:164-266 | a subscription pass visits every input once and ends, whatever the stack answers |
| `HogSession.SettlesEach` | dongle_bridge/src/ble_hog_central.c:189-243 | what a pass does to each input: the handle after the value when no CCC was found, and subscribed exactly when it is an INPUT report with id 0, 1 or 2 and granted |
| `HogSession.PassOutcome` | dongle_bridge/src/ble_hog_central.c:164-266 | a pass ends either ready or incomplete, and ready exactly when every wanted input was subscribed already, answered EALREADY, or had its CCC write succeed |
| `HogSession.BringUpOutcome` | dongle_bridge/src/ble_hog_central.c:268-446 | for a well laid out service with one to four reports whose references can be read, every report gets its own CCC, id and type, and the HOG is ready exactly when every keyboard or consumer input was granted |
| `HogSession.CallbacksBringUp` | dongle_bridge/src/ble_hog_central.c:325-486 | that closed form is what the individual callbacks do, from start_discovery on |
| `HogRuns.StepAlive` | dongle_bridge/src/ble_hog_central.c:750-1034 | no step loses both the scheduled tick and the outstanding bt_enable callback |
| `HogRuns.LoopNeverDies` | dongle_bridge/src/ble_hog_central.c:849-1034 | after a successful initial bt_enable, every reachable state has a reconnect tick scheduled or a bt_enable callback outstanding |
| `HogRuns.TickReschedules` | dongle_bridge/src/ble_hog_central.c:913-1006 | a tick leaves no tick scheduled exactly when it made a hard reset whose bt_enable was accepted |
| `HogRuns.WakesExactly` | dongle_bridge/src/ble_hog_central.c:488-1034 | with no tick scheduled, the exact list of events that schedule one; anything else leaves the stack and the outstanding bt_enable calls alone too |
| `HogRuns.StaysDown` | dongle_bridge/src/ble_hog_central.c:897-943 | after a hard reset whose bt_enable was accepted, every run without one of those events leaves the client with no tick, the stack down and no second bt_enable |
| `HogRuns.StepKeepsRef` | dongle_bridge/src/ble_hog_central.c:488-1006 | every step keeps one reference on the connection pointed to and none on any other |
| `HogRuns.ReferencesConserved` | dongle_bridge/src/ble_hog_central.c:488-1006 | over every run: exactly one reference is held when default_conn is set and none otherwise; no leak, no double unref |
| `HogRuns.StaleEventsIsolated` | dongle_bridge/src/ble_hog_central.c:488-617 | connected, disconnected and security_changed for a connection other than a non-null default_conn leave the pointer, the inputs, the discovery state and the references alone |
| `HogRuns.LadderMoves` | dongle_bridge/src/ble_hog_central.c:913-1006 | only idle and healthy ticks move the ladder, and how |
| `HogRuns.ResetAtClosedForm` | dongle_bridge/src/ble_hog_central.c:971-990 | the k-th hard reset's tick in closed form: 9 * (2^k - 1) up to the fifth, every 144 after |
| `HogRuns.BackoffLadder` | dongle_bridge/src/ble_hog_central.c:971-990 | from a cleared ladder, in any run in which no tick finds the HOG up, an idle tick makes a hard reset exactly when it is one of those ticks; the 8- and 16-bit counters never disturb this |
| `HogRuns.LadderHolds` | dongle_bridge/src/ble_hog_central.c:913-1006 | the invariant behind it, over every such run, with the saturated counter |
| `HogEffects.PointerExactly` | dongle_bridge/src/ble_hog_central.c:488-1006 | default_conn after any step: set by a successful create for an accepted advertiser, given up by a reset, the link's end, its own failed connect or a tick that finds it dead, else kept |
| `HogEffects.NewPointerExactly` | dongle_bridge/src/ble_hog_central.c:750-793 | a new connection is pointed to exactly on a connectable advertisement the parser accepts, with a successful create and no live connection in the way |
| `HogEffects.ResetBlanks` | dongle_bridge/src/ble_hog_central.c:869-893 | after every reset and every link's end nothing of the session is left: no flag, no input, no pending write |
| `HogEffects.DiscoveryBeginsExactly` | dongle_bridge/src/ble_hog_central.c:598-617 | discovery begins exactly when the own connection is encrypted, without error, while no session runs |
| `HogEffects.DiscoveryStartsClean` | dongle_bridge/src/ble_hog_central.c:464-486 | and from zeroed inputs and references |
| `HogEffects.SessionOtherwise` | dongle_bridge/src/ble_hog_central.c:325-1006 | all other steps leave the session to the GATT callbacks, but for the phase a dead link's tick forgets |
| `HogEffects.ScanningExactly` | dongle_bridge/src/ble_hog_central.c:750-1034 | after any step, whether the scan counts as running: which steps start it, and stop it, and what a failed start leaves |
| `HogEffects.StackFlagExactly` | dongle_bridge/src/ble_hog_central.c:897-1034 | the stack flag follows the callback, falls with a hard reset, and comes back when a retry finds the stack up |
| `HogEffects.EnablesExactly` | dongle_bridge/src/ble_hog_central.c:897-943 | bt_enable is called by a hard reset and by every sixth tick with the stack down, and by nothing else |
| `HogEffects.StallExactly` | dongle_bridge/src/ble_hog_central.c:913-1034 | the stall counter after any step |
| `HogEffects.AttemptsExactly` | dongle_bridge/src/ble_hog_central.c:913-1034 | the attempt counter after any step |
| `HogEffects.StackDownExactly` | dongle_bridge/src/ble_hog_central.c:913-1034 | the stack-down counter after any step |
| `HogEffects.FourthStallResets` | dongle_bridge/src/ble_hog_central.c:955-969 | over every run, whatever happens between: a tick on a live link whose HOG is not up gives up the link, blanks the session and scans exactly when it is the fourth since the last reset, loss or healthy tick; the others leave link and session alone |
| `HogEffects.EveryThirdIdleTickResets` | dongle_bridge/src/ble_hog_central.c:971-1005 | over every run, before the first hard reset, an idle tick blanks the session exactly at every third; and every idle tick but a hard one leaves the scan running unless it cannot be started |
| `HogEffects.SixthDownTickRetries` | dongle_bridge/src/ble_hog_central.c:917-943 | over every run: with the stack down bt_enable is called exactly at every sixth tick; already enabled, the client resumes and scans |
| `HogReady.PassVerdict` | dongle_bridge/src/ble_hog_central.c:189-266 | how a subscription pass from any input on ends, in terms of flags and answers alone: a write queued, ready, or a reset |
| `HogReady.PassKeepsFlags` | dongle_bridge/src/ble_hog_central.c:189-266 | a pass neither makes nor removes a flag without a confirmation |
| `HogReady.CccKeepsFlags` | dongle_bridge/src/ble_hog_central.c:164-187 | with every flag standing for a confirmed write, the CCC callback keeps that exactly when it is not a success for another input than the one at sub_index, itself never confirmed |
| `HogReady.CccExact` | dongle_bridge/src/ble_hog_central.c:164-266 | the same for the whole callback, in every phase, the end of its pass included |
| `HogReady.ReadExact` | dongle_bridge/src/ble_hog_central.c:279-299 | a delivered reference spoils an honest session exactly when it makes an input wanted while ready is declared and leaves it waiting, or ends the pass of a dropped connection on a leftover flag |
| `HogReady.StepExact` | dongle_bridge/src/ble_hog_central.c:164-1034 | any step keeps an honest session honest exactly when it is none of those |
| `HogReady.HonestExactly` | dongle_bridge/src/ble_hog_central.c:164-1034 | over every run from boot, late callbacks of all kinds allowed: the session is honest throughout exactly when no step misleads |
| `HogReady.ReadyIsSound` | dongle_bridge/src/ble_hog_central.c:164-266 | in every such run DISC_DONE means that each INPUT report with id 0, 1 or 2 had its CCC write confirmed, or answered EALREADY, in this session |
| `HogCurrent.StepKeepsOps` | dongle_bridge/src/ble_hog_central.c:164-486 | while every callback answers the current session, one operation is outstanding at a time, and a CCC write is for the input at sub_index |
| `HogCurrent.CurrentNeverMisleads` | dongle_bridge/src/ble_hog_central.c:164-486 | so no step of such a run misleads |
| `HogCurrent.CurrentRunsAreSound` | dongle_bridge/src/ble_hog_central.c:164-266 | and ready means that some input is known and each one wanted was confirmed |
| `HogLateRead.EmptyReadyIff` | dongle_bridge/src/ble_hog_central.c:279-299 | in every run whatever, DISC_DONE with no input is entered exactly when a report-reference read is delivered while no input is known |
| `HogLateRead.LateReadFakesReady` | dongle_bridge/src/ble_hog_central.c:279-299 | any session whose read is answered after its disconnect ends up that way |
| `HogLateRead.EmptyReadyOccurs` | dongle_bridge/src/ble_hog_central.c:279-299 | a run from boot in which a read outstanding at a disconnect is answered after it: the next link encrypts, no discovery begins, and the client believes it ready |
| `HogLateRead.FakeReadyStep` | dongle_bridge/src/ble_hog_central.c:538-1006 | which events end such a false ready, exactly; meanwhile every tick with the link up counts as healthy |
| `HogLateRead.FakeReadyStays` | dongle_bridge/src/ble_hog_central.c:538-1006 | through every run without such an event it stays |
| `HogLateRead.LateReadConfirmsWrongInput` | dongle_bridge/src/ble_hog_central.c:164-299 | a run from boot in which a read outstanding when the first link dropped is answered in the second link's pass, and a success is booked on the wrong input: ready with a wanted input never confirmed |
| `HogLateRead.ReadUnderReady` | dongle_bridge/src/ble_hog_central.c:279-388 | a run from boot in which the end of the first link's discovery comes late, in the second link's pass, and a reference read is then answered when ready: an unwanted input becomes wanted, unconfirmed, and ready stays |
| `HogLateRead.OrphanDeclaresReady` | dongle_bridge/src/ble_hog_central.c:164-187 | from any state in which the last write of a pass is outstanding when a tick drops the dead connection: its success declares ready on no connection, with the dead link's inputs unconfirmed |
| `HogLateRead.OrphanOccurs` | dongle_bridge/src/ble_hog_central.c:164-187 | a run from boot that does so |
| `HogClient.Discovery.Clear` | dongle_bridge/src/ble_hog_central.c:886-891 | the loop clears every subscription and input_count and goes idle |
| `HogClient.Discovery.MapDescriptor` | dongle_bridge/src/ble_hog_central.c:421-442 | the downward loop stores the descriptor with the input Owner names |
| `HogClient.Discovery.AnyRef` | dongle_bridge/src/ble_hog_central.c:353-360 | found exactly when some input has a reference |
| `HogClient.Discovery.DiscoverNextDesc` | dongle_bridge/src/ble_hog_central.c:448-462 | with ReadReportRef, mutually recursive and terminating: the new session is RefsThenSubscribe of the old |
| `HogClient.Discovery.ReadReportRef` | dongle_bridge/src/ble_hog_central.c:301-320 | as DiscoverNextDesc, from an input with a reference |
| `HogClient.Discovery.SubscribeOne` | dongle_bridge/src/ble_hog_central.c:191-243 | one turn of the loop: a CCC write queued, or one input passed without changing the outcome of the pass |
| `HogClient.Discovery.SubscribeNext` | dongle_bridge/src/ble_hog_central.c:189-266 | the new session and outcome are SubscribeNext of the old, both loops included |
| `HogClient.Client.ReconnectWorkHandler` | dongle_bridge/src/ble_hog_central.c:913-1006 | the tick with all its branches moves the statics as OnTick says; the other callbacks and resets of the class are tied to HogLink and HogSession in the same way |
| `HogClient.Client.CountIdle` | dongle_bridge/src/ble_hog_central.c:978-983 | the counters after an idle tick, with the shifted and truncated threshold |
| `HogClient.Client.DeviceFound` | dongle_bridge/src/ble_hog_central.c:750-793 | the callback on the raw payload; a new pointer only if some structure of it names NocFree and some lists 0x1812 |
| `ModeSwitch.ReadMode` | config/boards/nocfree/nocfree/src/mode_switch.c:100-110 | 2.4 GHz exactly when its contact reads positive, Bluetooth exactly when only the other does |
| `ModeSwitch.StepKeepsModes` | config/boards/nocfree/nocfree/src/mode_switch.c:529-567 | each event keeps OneModePerBoot's invariant |
| `ModeSwitch.OneModePerBoot` | config/boards/nocfree/nocfree/src/mode_switch.c:529-567 | over every run: apply_mode at most once a boot, the mode in force is the first one sampled, and the keyboard has rebooted exactly when some run of the apply work sampled a different one, USB event or not |
| `ModeSwitch.Debounced` | config/boards/nocfree/nocfree/src/mode_switch.c:569-622 | over every run: the apply work never samples the pins within 30 ms of the latest edge, and every edge and every USB event is followed by a run, past or scheduled |
| `ModeSwitch.OnlyCommitSamplesBounce` | config/boards/nocfree/nocfree/src/mode_switch.c:569-600 | over every run: inside that window what a step does depends on the contacts exactly when it is a settings commit before a reboot |
| `ModeSwitch.BounceClearsBond` | config/boards/nocfree/nocfree/src/mode_switch.c:569-600 | a run in which that matters: the slider comes to rest at Bluetooth, the commit falls into the bounce, reads 2.4 GHz and clears the dongle's bond |
| `ModeSwitch.ClearsOnlyDongle` | config/boards/nocfree/nocfree/src/mode_switch.c:309-600 | a step clears a bond outside the dongle slot exactly when a settings commit in 2.4 GHz position is refused the dongle profile while another is active |
| `ModeSwitch.RefusedCommitClearsHost` | config/boards/nocfree/nocfree/src/mode_switch.c:593-597 | a commit in which another host's bond is lost |
| `ModeSwitch.OtherBondsSafe` | config/boards/nocfree/nocfree/src/mode_switch.c:309-600 | a run clears no bond but the dongle slot's exactly when it contains no such commit, whatever profiles the user selects |
| `ModeSwitch.LinksSafe` | config/boards/nocfree/nocfree/src/mode_switch.c:122-424 | over every run: no central-role link is ever closed; in 2.4 GHz mode only links to peers stored in another slot, and by kicks and applies never one stored in the dongle's |
| `ModeSwitch.TurnedAwayButNotKicked` | config/boards/nocfree/nocfree/src/mode_switch.c:168-409 | the connect callback turns away every link a kick pass would close, and beyond those exactly peers also stored in the dongle slot and non-LE links |
| `ModeSwitch.WatchdogFollowsMode` | config/boards/nocfree/nocfree/src/mode_switch.c:309-377 | over every run the watchdog is armed exactly in 2.4 GHz mode, and kicks are scheduled only there |
| `ModeSwitch.ProfileFollowsSlider` | config/boards/nocfree/nocfree/src/mode_switch.c:429-527 | after the first or a USB-forced apply the active profile is the slider's, as far as ZMK accepts the selection |
| `ModeSwitch.BurstEnds` | config/boards/nocfree/nocfree/src/mode_switch.c:218-240 | a burst is at every point either scheduled with fewer than six passes run, or over with exactly six, in every run in which the apply work does no more than ignore a bounce |
| `ModeSwitch.HealBudget` | config/boards/nocfree/nocfree/src/mode_switch.c:309-357 | ticks and clears balance at every point of an unhealthy stretch |
| `ModeSwitch.WatchdogStep` | config/boards/nocfree/nocfree/src/mode_switch.c:309-368 | nothing but a watchdog run in 2.4 GHz mode moves the counter; a healthy one clears nothing and resets it |
| `ModeSwitch.HealsFollowTicks` | config/boards/nocfree/nocfree/src/mode_switch.c:309-368 | over every run on the dongle profile whose ticks find no secured connection, whatever happens between them, counter and clears are those of the ticks alone |
| `ModeSwitch.HealRate` | config/boards/nocfree/nocfree/src/mode_switch.c:309-368 | over N ticks of such a run between floor(N/20) and floor(N/10) clears, under any schedule of live connections |
| `ModeSwitch.ClearsSpaced` | config/boards/nocfree/nocfree/src/mode_switch.c:309-368 | two clears of such a run are at least ten ticks apart |
| `ModeSwitch.ClearsWithinTwenty` | config/boards/nocfree/nocfree/src/mode_switch.c:309-368 | any stretch of such a run with twenty ticks contains a clear |
| `ModeEffects.ClosesExactly` | config/boards/nocfree/nocfree/src/mode_switch.c:122-527 | any step closes exactly: on a kick pass, a first apply or a forced re-assert in 2.4 GHz mode, the known LE peripheral links stored in another slot and not in the dongle's; on the first wired apply, all known LE peripheral links; and a host stored elsewhere that connects in 2.4 GHz mode |
| `ModeEffects.ProfileExactly` | config/boards/nocfree/nocfree/src/mode_switch.c:218-600 | the active profile after any step |
| `ModeEffects.BondsExactly` | config/boards/nocfree/nocfree/src/mode_switch.c:309-600 | any step clears exactly: a commit in 2.4 GHz position the profile it leaves active, a watchdog tick due to heal the active one |
| `ModeEffects.TicksExactly` | config/boards/nocfree/nocfree/src/mode_switch.c:309-357 | the watchdog's saturating count after any step |
| `ModeEffects.ApplyScheduled` | config/boards/nocfree/nocfree/src/mode_switch.c:529-622 | 30 ms after an edge, 150 after a USB event, 50 after the commit, the latest wins; a USB event stays noted until the apply work has run |
| `ModeEffects.ModeExactly` | config/boards/nocfree/nocfree/src/mode_switch.c:529-567 | the first apply takes the mode over, a later run that reads another one reboots, and nothing else does either |
| `ModeEffects.KicksScheduled` | config/boards/nocfree/nocfree/src/mode_switch.c:218-240 | a burst starts 100 ms after an entry into 2.4 GHz mode, five passes follow 300 ms apart, and the first apply of another mode stops it |
| `ModeEffects.WatchdogScheduled` | config/boards/nocfree/nocfree/src/mode_switch.c:309-372 | the watchdog runs every 3 s from an entry into 2.4 GHz mode until an entry into another |
| `ModeEffects.HistoryIsTheEvents` | config/boards/nocfree/nocfree/src/mode_switch.c:529-622 | what the model remembers of edges, runs and USB events is what the run's events say |
| `ModeEffects.EventsAreServed` | config/boards/nocfree/nocfree/src/mode_switch.c:529-622 | over every run, in terms of its events: the apply work runs no sooner than 30 ms after the latest edge, every edge is followed by such a run or one is scheduled, and after a USB event one is scheduled until it has run |
| `ModeSwitchClient.Radio.AddrMatchesOther` | config/boards/nocfree/nocfree/src/mode_switch.c:185-199 | the loop finds exactly a match in some slot other than the dongle's |
| `ModeSwitchClient.Radio.DisconnectNonDongleHosts` | config/boards/nocfree/nocfree/src/mode_switch.c:168-209 | the walk closes KickDrops, in order |
| `ModeSwitchClient.Radio.DisconnectAllPeripheralHosts` | config/boards/nocfree/nocfree/src/mode_switch.c:122-152 | the walk closes HostDrops, in order |
| `ModeSwitchClient.Switch.ApplyWorkHandler` | config/boards/nocfree/nocfree/src/mode_switch.c:529-567 | ignore, re-assert, reboot or apply, as OnApply says; the other handlers of the two classes are tied to ModeSwitch in the same way |
| `Uf2Rescue.Flagged` | tools/uf2_rescue.py:105-105 | the family bit is set and the flags are otherwise as they were |
| `Uf2Rescue.DecodeEncode` | tools/uf2_rescue.py:80-115 | a block written by build is well formed and decodes to itself with the family flag set, for every payload up to 476 bytes |
| `Uf2Rescue.ParseImage` | tools/uf2_rescue.py:80-115 | parse_blocks(build(bs, f)) returns bs with the family flag set |
| `Uf2Format.AcceptedExactly` | tools/uf2_rescue.py:84-92 | in literal bytes, for every 512-byte block: accepted exactly when it opens 55 46 32 0A 57 51 5D 9E, closes 30 6F B1 0A and the little-endian length at 16 is at most 476; otherwise which of the three faults is named (Microsoft UF2 specification, section File format) |
| `Uf2Format.DecodedFields` | tools/uf2_rescue.py:86-93 | flags, address and payload of an accepted block are the little-endian fields at 8 and 12 and the bytes from 32 on |
| `Uf2Format.ParseExact` | tools/uf2_rescue.py:80-94 | for every file: the wrong size is refused; otherwise each block says what was returned for it, or the first malformed one is named with its fault |
| `Uf2Format.ImageBytes` | tools/uf2_rescue.py:97-115 | block k of an image, byte by byte: magics, flags with the family bit, address, length, number, count and family little-endian, payload, zero padding |
| `Uf2Rescue.ParseBlocks` | tools/uf2_rescue.py:80-94 | the loop computes Parse |
| `Uf2Rescue.Build` | tools/uf2_rescue.py:97-115 | the loop computes the image, or refuses a family or count that fits no 32-bit word, and only when there is a block |
| `Uf2Rescue.Built` | tools/uf2_rescue.py:97-115 | packing fails exactly for a family or count that fits no 32-bit word, and only when there is a block |
| `Uf2Rescue.RescueFile` | tools/uf2_rescue.py:140-174 | main between reading and writing: the filters and the order of its refusals |
| `Uf2Flash.ThreeFilters` | tools/uf2_rescue.py:146-167 | the three comprehensions together keep exactly the wanted, non-blank blocks |
| `Uf2Flash.RestoredExactly` | tools/uf2_rescue.py:146-167 | for any options: a block is restored exactly if it starts at or above the application or the SoftDevice is asked for, below the settings or they are asked for, and has a byte other than 0xFF |
| `Uf2Flash.RescueOutcome` | tools/uf2_rescue.py:140-173 | which of the endings any readable dump comes to |
| `Uf2Flash.RescueWrites` | tools/uf2_rescue.py:140-174 | a file that was written parses back to the surviving blocks |
| `Uf2Flash.TrimmingExactly` | tools/uf2_rescue.py:166-167 | for any list of blocks, dropping the blank ones changes what is written at an address exactly when the last wanted block over it is blank and the last block over it that is not dropped comes earlier and holds something else there |
| `Uf2Flash.RescuePreservesMeaning` | tools/uf2_rescue.py:140-174 | for every readable dump and every address: flashing the output leaves the byte that the wanted blocks, written in order, leave there, exactly unless the address is masked in that way |
| `Uf2Flash.DisjointKeepsMeaning` | tools/uf2_rescue.py:140-174 | so for a dump without overlaps: at every address of every wanted block the dump's byte, and erased flash everywhere else; dropping blank blocks changes nothing |
| `Uf2Flash.DefaultKeepsApplication` | tools/uf2_rescue.py:66-77 | by default, wanted means starting in [0x27000, 0x6C000), and the family stamped is 0x621E937A |
| `Uf2Flash.OverlapBreaksTrimming` | tools/uf2_rescue.py:166-167 | a file with a masked address: flashing the dump erases the byte, flashing the rescued image writes it |
| `Uf2Flash.RescueTwice` | tools/uf2_rescue.py:140-174 | rescuing a rescued image reproduces it byte for byte, under any options |
| `Uf2Flash.RescueOfTagged` | tools/uf2_rescue.py:140-174 | the family flags of a dump do not influence the result |
| `Uf2Flash.RescueRestores` | tools/uf2_rescue.py:140-174 | a built image with no blank block, woven with SoftDevice, settings and blank blocks and re-tagged with any family, rescues to exactly that image |
| `BacklightSync.PushSettles` | config/boards/nocfree/nocfree/src/split_backlight_sync.c:83-92 | a push the transport took in full settles on the central's state, whatever was in flight |
| `BacklightSync.SilentExactly` | config/boards/nocfree/nocfree/src/split_backlight_sync.c:74-93 | a poll is silent exactly when a push is remembered and shows what the central shows; otherwise every peripheral is handed the central's state, as far as the transport takes it |
| `BacklightSync.StatusExactly` | config/boards/nocfree/nocfree/src/split_backlight_sync.c:147-157 | each status event delivered is used up and makes the next poll push, whatever was remembered |
| `BacklightSync.PollTracks` | config/boards/nocfree/nocfree/src/split_backlight_sync.c:69-110 | a poll, however it fails, moves what was sent and what will be shown alike |
| `BacklightSync.SentIsTracked` | config/boards/nocfree/nocfree/src/split_backlight_sync.c:69-157 | over every run: while a push is remembered, a linked peripheral with no status event outstanding will be lit exactly when the commands accepted for it say so, at the level they say if it was lit at the last push |
| `BacklightSync.CleanMeansInStep` | config/boards/nocfree/nocfree/src/split_backlight_sync.c:69-157 | over every run: while the last push was taken in full and is remembered, a linked peripheral with no status event outstanding will show exactly what was pushed |
| `BacklightSync.PollSettles` | config/boards/nocfree/nocfree/src/split_backlight_sync.c:69-110 | the effect of one successful poll on one tracked peripheral |
| `BacklightSync.ConvergesExactly` | config/boards/nocfree/nocfree/src/split_backlight_sync.c:69-157 | over every run of changes, losses, link drops and failed polls: central stable, link up, events delivered, then one successful poll and a drained channel leave the peripheral showing the central's on/off and, when on, its brightness, exactly when the poll saw a change or the commands accepted so far already amount to the central's state; both can be read off the central |
| `BacklightSync.Converges` | config/boards/nocfree/nocfree/src/split_backlight_sync.c:69-157 | so it always does unless the last push was taken only in part |
| `BacklightSync.QuietChangesNothing` | config/boards/nocfree/nocfree/src/split_backlight_sync.c:74-79 | with nothing changed polls are silent: in step stays in step, and out of step stays out for good |
| `BacklightSync.RevertedPushSticks` | config/boards/nocfree/nocfree/src/split_backlight_sync.c:82-110 | a peripheral left lit for good beside a dark central: a push taken in part, and the central back at the state pushed before |
| `BacklightSyncWorker.Worker.PushTo` | config/boards/nocfree/nocfree/src/split_backlight_sync.c:52-63 | the command joins the channel exactly when the transport takes it |
| `BacklightSyncWorker.Worker.PushState` | config/boards/nocfree/nocfree/src/split_backlight_sync.c:83-93 | OFF, or ON and then SET only if ON was taken |
| `BacklightSyncWorker.Worker.SyncWork` | config/boards/nocfree/nocfree/src/split_backlight_sync.c:69-110 | the poll with its loop over the peripherals is PollStep |
| `BacklightSyncWorker.Worker.OnPeripheralStatus` | config/boards/nocfree/nocfree/src/split_backlight_sync.c:153-157 | any status event makes the next poll push again |

## Left out

- HogReady.ReadyIsSound: HonestExactly is exact for the flags and for ready together; a run may mislead about an input and still be right about ready again later, which ReadyIsSound does not count.
- HidQueue.Queue.TryDrain: the outer loop is unrolled once, because alone the re-check always finds the queue empty; with other threads it is the step Recheck of HidDrain.
- BacklightSync.Converges: a sufficient condition, kept for its plainness; ConvergesExactly has the exact one.
- HogClient.Client.ReconnectWorkHandler: it and the other handlers of the class leave out the key release, the unpairing, the security request and the settings load.
- ModeSwitchClient.Switch.ApplyWorkHandler: it and the other handlers of the two classes leave out the preferred transport and the forced re-advertising.
- HogLink: `conn_is_live` has one value throughout a step.
- The atomic counters are unbounded except where Stats reports them modulo 2^32.
- Names of peers and connections are numbers; addresses are compared only for equality.
- Routing of notifications to the USB queue, the key release before a reset, unpairing, security requests, connection parameters and the pairing callbacks of the HOG client.
- The service UUID test of discovery (the stack was asked for that service only) and the handle range of later phases.
- Unlocked accesses to the HOG client's statics from two threads.
- The preferred transport, forced re-advertising and the device set-up of the switch; builds without the reboot option.
- The activity nudge of the backlight poll, and changes of a peripheral's backlight not ordered by the central.
- The command line, file access and progress messages of the rescue tool; options are integers already. Flags of a block other than the family flag carry no meaning here, and a block's payload is written whole even across the settings boundary.
- Log output, HID report descriptors, GPIO and I2C drivers, device tree, Kconfig, build and flash scripts.
- Zephyr, ZMK and the Bluetooth and USB stacks other than as arbitrary answers.
- expander_int_wake.c, expander_polarity_clear.c, backlight_boot_on.c, battery_bas_min.c and recovery.c: small branch-level logic.
- Keymaps, gen_studio_layout.py and the host-side analysis scripts.
