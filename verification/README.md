# Lindroid, modelled and proved

Lindroid shows a Linux container's desktop inside an Android app. This project models the parts that have to
get state and concurrency right, and proves what they keep.

* **The composer** (`composer_*.dfy`, `vsync_loop.dfy`, `display_rate.dfy`). A small display server: a map of
  displays shared by the UI thread, binder threads, one vsync thread per display and surface-transaction
  completion callbacks. `ComposerState` holds every critical section as a function on the shared state,
  `ComposerMachine` makes each critical section, emission and lock-free access one action, and a run is any
  interleaving of enabled actions. Operating-system resources are explicit: a descriptor table that reuses
  numbers and a table of live surface controls, where closing, handing over or releasing something one does
  not own is recorded as misuse. The invariants in `ComposerInvariants` hold in every reachable state;
  `ComposerTheorems`, `ComposerVsync`, `ComposerFiles`, `ComposerFences`, `ComposerHotplug`, `ComposerStale` and
  `ComposerListeners` say what they mean; `ComposerDelivery` and `ComposerOutcomes` say what reaches the callback
  and the screen, and what whole entry points come to, in terms of the stored fields. Hotplug results speak of the merged trace of all listeners, except in
  `ComposerListeners`, which follows the listener registered last.
  `ComposerImpl` is the same service as objects updated in place, each method proved against those functions.
* **The input devices** (`input_*.dfy`). Event frames written to four uinput descriptors per display, decoded
  again by the slot protocol of the kernel's "Multi-touch (MT) Protocol" document (type B), as a pen, as keys and
  as a pointer; the registry of descriptors under interleaved `reconfigure` and `stop`; and the objects themselves.
* **The display activity** (`display_activity.dfy`, `display_elision.dfy`). The debounce and the cache that
  leaves native calls out, as an object and as a machine joined to the composer's.
* **The container script** (`template_*.dfy`). Rewriting the configuration and the five `sed` substitutions.
* **Container logs** (`container_logs.dfy`). The log threads of the app, as a machine and as an object.
* **The container service** (`lxc_containers.dfy`). Containers, log terminals and their descriptors.

Some expectations are false of the code. Each is kept as it is, with a concrete run or input that shows it and
the exact condition, for all inputs or runs, under which the code does meet it:

* `setBuffer` goes on after a failed `createFromHandle` with a descriptor it has closed
  (`ComposerWitnesses.FailedImportMisusesDescriptor`; exactly then: `ComposerFiles.MisuseExactlyWhenBroken`).
* A completion that comes after its display was torn down leaves its fence open for good
  (`ComposerWitnesses.LateFenceStaysOpen`; exactly then a descriptor is held that no mapped display has:
  `ComposerFences.FencesReturnUnlessLate`).
* A listener that registers while a plugged display has no window is never told of it
  (`ComposerWitnesses.LaterListenerMissesDisplay`; exactly such displays are missed:
  `ComposerListeners.ListenerIsToldUnlessMissed`).
* `registerCallback` can send a connect for a display that has been disconnected meanwhile
  (`ComposerWitnesses.OverlapLeavesStaleConnect`; exactly such a connect makes trace and state disagree:
  `ComposerStale.HotplugMatchesUnlessStale`).
* A refresh rate whose period rounds onto an end of the range is not recovered (`DisplayRate.FastRateIsLost`;
  exactly the rates outside given bounds: `DisplayRate.RateRecovered`).
* A failed uinput setup leaves a closed number in its field, which a later stop closes again
  (`InputRegistry.FailedSetupIsStale`; exactly then: `InputRegistry.RunAccounted`).
* Pen tilt, pen distance and touch pressure are written to axes that the devices do not declare, the two tilts even
  to one and the same (`InputEvents.HoverTiltsShareAnAxis`), so they never reach a reader (`InputEvents.TiltIsLost`; right exactly at zero: `InputEvents.TiltIsRightOnlyAtZero`,
  `InputEvents.TouchPressureIsLost`; which calls arrive whole: `InputEvents.ArrivesWhole`).
* A surface change is lost when the hardware service tears display 0 down behind a full cache
  (`DisplayElision.StrandedDisplay`; exactly on a disturbed display: `DisplayElision.ElisionIsExact`).
* A container named `PATH`, or one whose name ends in `L`, breaks the template substitution
  (`TemplateNames.PathIsNotASafeName`, `TemplateNames.NamesEndingInLAreNotSafe`; exactly when some value can
  complete a later token: `TemplateNames.SafeNames`).
* A join given up while its thread is alive lets a container have two log threads (`ContainerLogs.DoubledThread`;
  exactly such a step breaks the invariant: `ContainerLogs.StepKeepsInv`).
* A terminal stays open with no stop able to close it when a container that exited by itself is started again, or
  deleted without a stop (`LxcContainers.LostTerminal`, `LxcContainers.AbandonedTerminal`; exactly then, until the
  container is added again: `LxcContainers.StrandedExactly`), and output is cut at a NUL
  (`LxcContainers.NulCutsOutput`; exactly then: `LxcContainers.FetchedIsConsumed`).

`dafny verify dfyconfig.toml` checks the whole project.

## Model

| member | source | states |
|---|---|---|
| `DisplayRate.PeriodInRange` | app/app/src/main/cpp/ComposerImpl.cpp:315-320 | whatever rate is reported, the stored period lies between one millisecond and one second, so the config never carries a zero or negative period |
| `DisplayRate.RateRecovered` | app/app/src/main/cpp/ComposerImpl.cpp:69-74 | for every reported rate, usable or not: the content rate recovered from the stored period is within half a nanosecond of period of it if and only if it lies within two given bounds (and then within 0.0005 Hz) |
| `DisplayRate.FastRateIsLost` | app/app/src/main/cpp/ComposerImpl.cpp:69-74 | 999.9999 Hz is stored at the shortest period and then treated as 60 Hz |
| `DisplayRate.PeriodRoundTrip` | app/app/src/main/cpp/ComposerImpl.cpp:69-74 | period to rate to rounded period is the identity if and only if the period is not one of the two ends, which fall back to 60 Hz |
| `VsyncLoop.BatchingIrrelevant` | app/app/src/main/cpp/ComposerImpl.cpp:511-520 | draining to an empty queue ends in the same state for every way the receiver splits the events into batches of one to sixteen |
| `VsyncLoop.LastVsyncWins` | app/app/src/main/cpp/ComposerImpl.cpp:47-56 | the timestamp and count kept are those of the last event in the whole drained sequence whose tag is one of the two numbers 0x7673796e and 0x6e797376, other events having no influence |
| `VsyncLoop.LateCallIsTheLast` | app/app/src/main/cpp/ComposerImpl.cpp:464-525 | what a thread still reports while it is being joined is the last vsync event in its queue at that time, and nothing if its last poll does not wake it, if there is no such event, or if its timestamp is zero |
| `VsyncLoop.StoppedStep` | app/app/src/main/cpp/ComposerImpl.cpp:488-531 | every step of a thread whose flag is cleared brings it closer to its exit and uses up its single remaining callback |
| `VsyncLoop.NeverBlocked` | app/app/src/main/cpp/ComposerImpl.cpp:478-532 | until it has exited the loop can take a step of its own, with no regard to the composer lock |
| `VsyncLoop.VsyncThread.DrainAndCall` | app/app/src/main/cpp/ComposerImpl.cpp:506-525 | a readable wakeup, from wherever its drain stands, empties the queue and calls back at most once, with the last vsync event, and not at all for a zero timestamp |
| `VsyncLoop.VsyncThread.Turn` | app/app/src/main/cpp/ComposerImpl.cpp:488-531 | a turn of the loop drains only on a readable poll and afterwards continues exactly if the flag is still set |
| `VsyncLoop.VsyncThread.Stop` | app/app/src/main/cpp/ComposerImpl.cpp:464-471 | from wherever the loop stands the join returns with the thread exited and exactly the late callback that its program point and queue call for, at most one |
| `ComposerMachine.WfPreserved` | app/app/src/main/cpp/ComposerImpl.cpp:81-447 | every action of any thread leaves the map pointing at existing display objects that carry their own id, so no object is mapped twice |
| `ComposerInvariants.StepKeepsInv` | app/app/src/main/cpp/ComposerImpl.cpp:81-447 | each action keeps all invariants together: teardown target, threads, surface controls, plugging, coherence of announcements, references |
| `ComposerInvariants.ReachableInv` | app/app/src/main/cpp/ComposerImpl.cpp:81-447 | hence they hold in every state that any interleaving of UI, binder, completion and vsync steps reaches |
| `ComposerTheorems.ObserverIsCurrent` | app/app/src/main/cpp/ComposerImpl.cpp:334-388 | an observer of the merged trace of all listeners that answers every connect and refresh with getActiveConfig has the width, height and period stored for every plugged display once nothing is in flight |
| `ComposerTheorems.WindowImpliesPlugged` | app/app/src/main/cpp/ComposerImpl.cpp:374-377 | a display with a window is plugged whenever a callback is registered, in every interleaving |
| `ComposerTheorems.EraseHitsTheTornDownEntry` | app/app/src/main/cpp/ComposerImpl.cpp:415-447 | the entry that onDisplayDestroyed erases is the object it tore down, still without window and control, unplugged, its thread gone, whatever binder calls ran in the unlocked middle |
| `ComposerTheorems.LiveControlsAreHeld` | app/app/src/main/cpp/ComposerImpl.cpp:366-411 | live surface controls are exactly those of mapped displays, none is shared or released twice, and each was made from the window now stored beside it |
| `ComposerTheorems.TransactionsHitLiveControls` | app/app/src/main/cpp/ComposerImpl.cpp:216-269 | the second section applies exactly one transaction if the display mapped to its id at that moment holds a control, and none otherwise; it addresses that control, which is live and made from the display's window, even when the display was recreated since the first section |
| `ComposerVsync.StoppedThread` | app/app/src/main/cpp/ComposerImpl.cpp:464-532 | from any state with the flag cleared, over every continuation: the flag stays cleared, at most one callback follows, and the loop takes no more steps than its rank plus the events still arriving |
| `ComposerVsync.JoinMakesProgress` | app/app/src/main/cpp/ComposerImpl.cpp:429-430 | while onDisplayDestroyed waits under the lock either the thread can move or the wait is over, so the join cannot deadlock |
| `ComposerVsync.SilentAfterDestroy` | app/app/src/main/cpp/ComposerImpl.cpp:356-361 | once onDisplayDestroyed is past its first section no vsync for that display is delivered until onSurfaceChanged recreates it |
| `ComposerDelivery.VsyncIsDelivered` | app/app/src/main/cpp/ComposerImpl.cpp:356-361 | in every interleaving of threads and arriving events: a delivering vsync thread adds to the trace exactly the timestamp of the last vsync event among those that arrived for its display and were taken since it woke up, under that display's id and the current sequence id; nothing if there is none, if the timestamp is zero, or without a callback; and events are taken in the order of arrival with none lost |
| `ComposerDelivery.OnlyDeliverSendsVsync` | app/app/src/main/cpp/ComposerImpl.cpp:522-524 | no other action of any thread adds a vsync to the trace |
| `ComposerDelivery.WakeupSendsLast` | app/app/src/main/cpp/ComposerImpl.cpp:506-525 | one undisturbed wakeup, for every split into batches, sends exactly the last vsync event of the queue |
| `ComposerOutcomes.EventsAreLabelled` | app/app/src/main/cpp/ComposerImpl.cpp:97-101 | in every interleaving an action adds at most one event to the trace; it carries the sequence id registered last, or for onSurfaceChanged the one registered last when it decided; a hotplug is primary if and only if it is for display 0 |
| `ComposerOutcomes.SurfaceChangeIsHeard` | app/app/src/main/cpp/ComposerImpl.cpp:334-388 | without a callback nothing is heard, for a new or unplugged display a connect and a refresh, for a plugged one a refresh if and only if width, height or period differs from what is stored; afterwards the display has the window and configuration given |
| `ComposerOutcomes.SetBufferApplies` | app/app/src/main/cpp/ComposerImpl.cpp:180-277 | an undisturbed setBuffer applies exactly one transaction, on the control of the mapped display, if that has a surface and a control, and none otherwise; the machine's steps together leave the descriptors as the object's method does |
| `ComposerOutcomes.DestroyedSurfaceIsEmpty` | app/app/src/main/cpp/ComposerImpl.cpp:391-413 | the fence in the slot is closed and the control released, both its own, window and surface are gone, and plug state, thread, configuration, other displays and other descriptors stay |
| `ComposerOutcomes.DestroyedDisplayIsEmpty` | app/app/src/main/cpp/ComposerImpl.cpp:415-447 | an undisturbed onDisplayDestroyed leaves as little, unplugged, with the thread exited and the id unmapped |
| `ComposerFiles.StepKeepsFiles` | app/app/src/main/cpp/ComposerImpl.cpp:136-277 | every step without a bad import keeps descriptors and their holders (slots, locals, acquire fences) in one-to-one correspondence, with numbers being reused |
| `ComposerFiles.PresentReturnsTheFence` | app/app/src/main/cpp/ComposerImpl.cpp:147-159 | the fcntl check of present never rejects a stored fence, so its other branch never drops an open descriptor |
| `ComposerFiles.MisuseExactlyWhenBroken` | app/app/src/main/cpp/ComposerImpl.cpp:180-277 | with no setBuffer under way, some descriptor was closed or handed over by code not owning it if and only if a call went on after createFromHandle failed with an acquire fence |
| `ComposerFiles.IdleDescriptorsAreFences` | app/app/src/main/cpp/ComposerImpl.cpp:239-253 | with no call and no completion under way every descriptor still held is the stored fence of exactly one display object, torn down or not |
| `ComposerFences.UnmappedFenceIsLate` | app/app/src/main/cpp/ComposerImpl.cpp:239-253 | in every interleaving an object that is not mapped any more holds a fence if and only if its last completion stored one after its teardown had closed the slot and present has not fetched it |
| `ComposerFences.FencesReturnUnlessLate` | app/app/src/main/cpp/ComposerImpl.cpp:240-253 | conservation to the end: with no call and no completion under way, every descriptor still held is the fence of a mapped display if and only if no completion came late |
| `ComposerHotplug.PluggedDisplaysAreConnected` | app/app/src/main/cpp/ComposerImpl.cpp:81-103 | in every interleaving a plugged display is connected in the merged trace of all listeners, or its connect is still on the way |
| `ComposerStale.HotplugMatchesUnlessStale` | app/app/src/main/cpp/ComposerImpl.cpp:81-447 | in every interleaving, at rest: a display is plugged exactly when its last hotplug event in the merged trace is a connect, if and only if that event is not a stale connect, one that registerCallback sent when the display was no longer plugged |
| `ComposerStale.RefreshFindsConnectPending` | app/app/src/main/cpp/ComposerImpl.cpp:383-388 | in every interleaving a refresh goes to a display that is connected in the merged trace or whose connect registerCallback still owes |
| `ComposerStale.HotplugTraceMatchesState` | app/app/src/main/cpp/ComposerImpl.cpp:374-447 | when registerCallback overlaps no UI entry point no connect is ever stale, so at rest a display is plugged if and only if its last hotplug event in the merged trace is a connect; and every refresh went to a display connected there |
| `ComposerListeners.PluggedIsToldOrMissed` | app/app/src/main/cpp/ComposerImpl.cpp:81-103 | in every interleaving the listener registered last has been told of a plugged display, is about to be told by onSurfaceChanged or registerCallback, or missed it, the display being plugged but windowless at its registration |
| `ComposerListeners.ListenerIsToldUnlessMissed` | app/app/src/main/cpp/ComposerImpl.cpp:89-95 | at rest the listener registered last has been told of a plugged display if and only if it did not miss it |
| `ComposerListeners.RefreshReachesToldListener` | app/app/src/main/cpp/ComposerImpl.cpp:383-388 | in every interleaving a refresh is for a display of which the listener registered last has been told, is about to be told, or which it missed |
| `ComposerListeners.ListenerIsCurrent` | app/app/src/main/cpp/ComposerImpl.cpp:115-123 | a listener that has answered every connect and refresh it got itself knows the stored width, height and period of each plugged display it was told of |
| `ComposerWitnesses.OverlapLeavesStaleConnect` | app/app/src/main/cpp/ComposerImpl.cpp:97-101 | a reachable state, with nothing under way, in which a destroyed display is still connected in the trace |
| `ComposerWitnesses.FailedImportMisusesDescriptor` | app/app/src/main/cpp/ComposerImpl.cpp:211-215 | a reachable state in which setBuffer has handed over a descriptor number it had closed before |
| `ComposerWitnesses.LateFenceStaysOpen` | app/app/src/main/cpp/ComposerImpl.cpp:240-253 | a reachable state at rest with no display left and the fence of the destroyed one still open |
| `ComposerWitnesses.LaterListenerMissesDisplay` | app/app/src/main/cpp/ComposerImpl.cpp:91-93 | a reachable state at rest in which the last listener has heard nothing of a plugged display and will not when its surface returns |
| `ComposerImpl.BufferFencePassedOnce` | app/app/src/main/cpp/ComposerImpl.cpp:180-277 | a setBuffer call closes its acquire fence or hands it over exactly once and touches nothing else, except precisely when the display is known, the import fails and there is a fence |
| `ComposerImpl.ComposerImpl.GetActiveConfig` | app/app/src/main/cpp/ComposerImpl.cpp:115-123 | the stored configuration of a mapped display, and nothing for an unknown id |
| `ComposerImpl.ComposerImpl.Present` | app/app/src/main/cpp/ComposerImpl.cpp:136-161 | the slot is emptied and its fence goes to the caller exactly if the kernel still knows it; the object refines the present section |
| `ComposerImpl.ComposerImpl.Complete` | app/app/src/main/cpp/ComposerImpl.cpp:240-253 | a completion swaps its duplicate into the slot and takes the replaced fence out, losing neither |
| `ComposerImpl.ComposerImpl.SetBuffer` | app/app/src/main/cpp/ComposerImpl.cpp:180-277 | for a display with a surface the transaction goes to exactly the control stored in it, if there is one; otherwise none is made; only the descriptor table changes, by the branches taken |
| `ComposerImpl.ComposerImpl.OnSurfaceChanged` | app/app/src/main/cpp/ComposerImpl.cpp:297-389 | the objects refine the locked section and announce what was decided under the lock: for a plugged display a refresh exactly if width, height or period differs; a missing window or surface changes nothing |
| `ComposerImpl.ComposerImpl.OnSurfaceDestroyed` | app/app/src/main/cpp/ComposerImpl.cpp:391-413 | window, surface, control and fence of that display go, each resource released once; an unknown id changes nothing |
| `ComposerImpl.ComposerImpl.OnDisplayDestroyed` | app/app/src/main/cpp/ComposerImpl.cpp:415-447 | after the call the display is unmapped and its thread exited; if a callback is registered it heard the timestamp of the late vsync, if the thread's program point and queue at entry make it report one, and then exactly one disconnect, otherwise nothing |
| `ComposerImpl.ComposerImpl.RegisterCallback` | app/app/src/main/cpp/ComposerImpl.cpp:81-103 | every display with a window is plugged and connected exactly once, in some order, and nothing else is announced |
| `InputEvents.FramesAreClosed` | app/app/src/main/cpp/InputDevice.cpp:334-454 | whatever calls are made, a device stream is empty or ends with SYN_REPORT |
| `InputEvents.TouchCallDecodes` | app/app/src/main/cpp/InputDevice.cpp:344-364 | what is delivered of one touch call decodes by the slot protocol to the update it describes if and only if its pointer id is a legal slot, or it is an unknown action, or an UP that finds the addressed slot empty |
| `InputEvents.TouchStreamDecodes` | app/app/src/main/cpp/InputDevice.cpp:344-364 | what is delivered of any sequence of touch calls with legal pointer ids decodes to exactly the contacts, by position, inserted or moved by DOWN and MOVE and removed by UP |
| `InputEvents.TouchPressureIsLost` | app/app/src/main/cpp/InputDevice.cpp:27-34 | the touch device has no pressure axis: the pressure of a contact is right if and only if it is zero |
| `InputEvents.PenStreamDecodes` | app/app/src/main/cpp/InputDevice.cpp:366-419 | what is delivered of any sequence of stylus calls, buttons included, decodes to the pen it describes: proximity, contact, position and pressure, with distance and tilt never moving |
| `InputEvents.TiltIsRightOnlyAtZero` | app/app/src/main/cpp/InputDevice.cpp:42-50 | the tilt reported after a call is the one it was given if and only if both values are zero, and the same for the distance of a hover |
| `InputEvents.TiltIsLost` | app/app/src/main/cpp/InputDevice.cpp:405-410 | a pen put down with tilt 30 and 10 is reported at its position and with its pressure, but upright |
| `InputEvents.HoverTiltsShareAnAxis` | app/app/src/main/cpp/InputDevice.cpp:376-394 | as written, whatever the device declares: a hover carries position, proximity and distance, but its second tilt overwrites the first, the axis of the second never being written |
| `InputEvents.PointTiltsShareAnAxis` | app/app/src/main/cpp/InputDevice.cpp:396-419 | the same for a touching pen, with its pressure |
| `InputEvents.PressureIsWritten` | app/app/src/main/cpp/InputDevice.cpp:344-364 | as written, a DOWN or MOVE with a legal pointer id sets position and pressure of its contact |
| `InputEvents.ArrivesWhole` | app/app/src/main/cpp/InputDevice.cpp:22-65 | exactly which calls reach a reader with every event they write: keys below 255, pointer motion, the declared buttons, wheels, and lifts, but no DOWN or MOVE of touch or pen and no hover |
| `InputPointers.InjectTruncates` | app/app/src/main/cpp/InputDevice.h:25 | values and codes are truncated to 32 signed and 16 unsigned bits, values in range being kept |
| `InputPointers.KeyStreamDecodes` | app/app/src/main/cpp/InputDevice.cpp:334-342 | what is delivered of any sequence of key calls decodes to exactly the keys held down, among those the keyboard declares |
| `InputPointers.ButtonDecodes` | app/app/src/main/cpp/InputDevice.cpp:432-444 | a button call is reported as a move to its position first and then as the button changing, which happens exactly for the declared mouse buttons |
| `InputPointers.TabletStreamDecodes` | app/app/src/main/cpp/InputDevice.cpp:421-454 | what is delivered of any sequence of tablet calls decodes to the pointer: the position of the last motion or button call, the mouse buttons held down, and both wheels turned by the sum of their scrolls |
| `InputRegistry.StartDeviceAccounted` | app/app/src/main/cpp/InputDevice.cpp:99-235 | starting a closed device keeps the descriptor books if and only if open fails or every setup ioctl succeeds |
| `InputRegistry.StartOpensInOrder` | app/app/src/main/cpp/InputDevice.cpp:280-303 | starting an unmapped display opens keyboard, touch, stylus and tablet in this order up to the first that fails; those behind it are not tried, and the size is the given one |
| `InputRegistry.StopAccounted` | app/app/src/main/cpp/InputDevice.cpp:310-332 | stop always unmaps the display, closes its open descriptors once each and leaves every other stream untouched |
| `InputRegistry.RunAccounted` | app/app/src/main/cpp/InputDevice.cpp:280-332 | over any interleaving of stops, starts and input calls, with descriptor numbers reused: every field is -1 or an open descriptor of its own, open ones belong to mapped displays, and none was closed twice or by a wrong owner, if and only if no opened device failed its setup |
| `InputRegistry.FailedSetupIsStale` | app/app/src/main/cpp/InputDevice.cpp:229-254 | a start whose first setup fails leaves number 3 in the field although it is closed, and stopping closes it again |
| `InputRegistry.ReconfigureSize` | app/app/src/main/cpp/InputDevice.cpp:305-308 | after a reconfigure the display has its new size if and only if no start with another size got in between its two sections; undisturbed it always has |
| `InputRegistry.StreamsAreSeparate` | app/app/src/main/cpp/InputDevice.cpp:334-454 | over any run of stops, starts and input calls, setups failing or not, the stream of a device whose display is not stopped stays open and grows by exactly the frames of the calls for its own display and device, in call order |
| `InputRegistry.TouchScreenDecodes` | app/app/src/main/cpp/InputDevice.cpp:344-364 | the stream of one touch device, while its display is not stopped, decodes to the contacts of its own calls, whatever happens to other displays and devices in between |
| `InputDevices.UInputDevice.Start` | app/app/src/main/cpp/InputDevice.cpp:99-235 | the object opens the one field of its device, keeps the number after a failed setup, and succeeds exactly for a closed device that opens and sets up |
| `InputDevices.UInputDevice.Stop` | app/app/src/main/cpp/InputDevice.cpp:237-254 | an open descriptor is closed once, the field keeps its number |
| `InputDevices.UInputDevice.Inject` | app/app/src/main/cpp/InputDevice.cpp:256-271 | one event is appended to the stream of that device and to no other; without a descriptor nothing is written |
| `InputDevices.InputDevice.Start` | app/app/src/main/cpp/InputDevice.cpp:280-303 | a new display gets its size, then the four devices are started in order until one fails |
| `InputDevices.InputDevice.Stop` | app/app/src/main/cpp/InputDevice.cpp:310-332 | the display disappears from the map after its devices are closed |
| `InputDevices.InputDevice.Reconfigure` | app/app/src/main/cpp/InputDevice.cpp:305-308 | undisturbed, it is the stop followed by the start |
| `InputDevices.InputDevice.KeyEvent` | app/app/src/main/cpp/InputDevice.cpp:334-342 | writes the key frame of that display event by event |
| `InputDevices.InputDevice.TouchEvent` | app/app/src/main/cpp/InputDevice.cpp:344-364 | writes the touch frame of that display event by event, in the order the decoder needs |
| `InputDevices.InputDevice.TouchStylusButtonEvent` | app/app/src/main/cpp/InputDevice.cpp:366-374 | writes the button frame of that display |
| `InputDevices.InputDevice.TouchStylusHoverEvent` | app/app/src/main/cpp/InputDevice.cpp:376-394 | writes the hover frame of that display, with the proximity key only on enter and exit |
| `InputDevices.InputDevice.TouchStylusEvent` | app/app/src/main/cpp/InputDevice.cpp:396-419 | writes the stylus frame of that display for its action |
| `InputDevices.InputDevice.PointerMotionEvent` | app/app/src/main/cpp/InputDevice.cpp:421-430 | writes the motion frame of that display |
| `InputDevices.InputDevice.PointerButtonEvent` | app/app/src/main/cpp/InputDevice.cpp:432-444 | writes position and button as two reports of that display |
| `InputDevices.InputDevice.PointerScrollEvent` | app/app/src/main/cpp/InputDevice.cpp:446-454 | writes the wheel frame of that display for its direction |
| `DisplayActivity.TriggerPostsLatest` | app/app/src/main/java/org/lindroid/ui/DisplayActivity.java:370-380 | after a surface change exactly one apply is pending and it carries that change's geometry |
| `DisplayActivity.LeaveCancels` | app/app/src/main/java/org/lindroid/ui/DisplayActivity.java:383-393 | after surfaceDestroyed nothing is pending and nothing is remembered; the native side is told exactly if there is a surface, before the cache is cleared |
| `DisplayActivity.ResetForgets` | app/app/src/main/java/org/lindroid/ui/DisplayActivity.java:425-430 | a reset makes the cache agree with having made no call |
| `DisplayActivity.ApplyRemembers` | app/app/src/main/java/org/lindroid/ui/DisplayActivity.java:395-423 | an apply leaves its arguments in the cache; it makes no call if all four were there already, otherwise exactly one native call, followed by a reconfiguration of the input device exactly if the size differs |
| `DisplayActivity.FireKeepsDebounced` | app/app/src/main/java/org/lindroid/ui/DisplayActivity.java:395-423 | running the pending apply keeps the cache equal to the last native call since the last reset and leaves nothing pending |
| `DisplayActivity.SizeIsCurrent` | app/app/src/main/java/org/lindroid/ui/DisplayActivity.java:395-423 | after an apply the input device has the size of the apply, reconfigured now or before, if and only if it is not an apply of size zero right after a reset |
| `DisplayActivity.DisplayActivity.SurfaceCreated` | app/app/src/main/java/org/lindroid/ui/DisplayActivity.java:357-363 | a new surface clears the cache, no surface changes nothing |
| `DisplayActivity.DisplayActivity.TriggerSurfaceChanged` | app/app/src/main/java/org/lindroid/ui/DisplayActivity.java:370-380 | the object cancels by removing every queued entry of its runnable, then queues a new one |
| `DisplayActivity.DisplayActivity.SurfaceDestroyed` | app/app/src/main/java/org/lindroid/ui/DisplayActivity.java:383-393 | cancels, tells the native side if there is a surface, and clears the cache |
| `DisplayActivity.DisplayActivity.ApplySurfaceChanges` | app/app/src/main/java/org/lindroid/ui/DisplayActivity.java:395-423 | calls down exactly if size, density or rate differ from the cache, reconfigures input exactly if the size does, and does nothing without a valid surface |
| `DisplayActivity.DisplayActivity.RunPosted` | app/app/src/main/java/org/lindroid/ui/DisplayActivity.java:378-379 | the handler's oldest entry runs with the geometry it was posted with |
| `DisplayElision.StepKeepsLink` | app/app/src/main/java/org/lindroid/ui/DisplayActivity.java:356-430 | every callback of the activity and every other step in the composer keep cache and composer linked: the mapped display has the window and configuration of the last native call, unless torn down since |
| `DisplayElision.ReachableLink` | app/app/src/main/java/org/lindroid/ui/DisplayActivity.java:356-430 | so they are linked in every state the activity and the rest of the process can reach |
| `DisplayElision.ElisionIsExact` | app/app/src/main/java/org/lindroid/ui/DisplayActivity.java:405-421 | the call left out by an elided apply would have changed nothing, for every surface control on offer, if and only if a call was made since the reset, it got a control, and nobody tore the display down since |
| `DisplayElision.CachedEqualsUncached` | app/app/src/main/java/org/lindroid/ui/DisplayActivity.java:395-423 | an activity without the cache drives the composer through the same states and events and leaves the input device at the same size, for every run that elides only on an intact display and skips no size |
| `DisplayElision.StrandedDisplay` | app/app/src/main/java/org/lindroid/ui/HardwareService.java:80-94 | a reachable state in which eliding is wrong: after the service tore display 0 down the next change is left out and the display stays away |
| `TemplateSubstitution.OnePass` | lxc/template.sh:341-345 | one more sed pass adds exactly one more token to the simultaneous replacement, for text of any length, when no earlier value can take part in that token |
| `TemplateSubstitution.PassesEqualAtOnce` | lxc/template.sh:335-348 | the passes in order equal replacing all tokens at once, for any token list whose members do not overlap |
| `TemplateSubstitution.TokensSeparate` | lxc/template.sh:341-345 | none of the five tokens starts inside another or begins with another |
| `TemplateSubstitution.PlainValueDoesNotClash` | lxc/template.sh:341-345 | a value that contains no token and begins and ends outside [A-Z_] can never complete a token, whatever stands around it |
| `TemplateSubstitution.ScriptSubstitutesAtOnce` | lxc/template.sh:335-348 | hence the script substitutes simultaneously for plain values, on any text |
| `TemplateNames.SafeNames` | lxc/template.sh:341-345 | for any name and absolute paths, the script is a simultaneous substitution on every text if and only if no value can complete a later token |
| `TemplateNames.LowercaseNamesAreSafe` | lxc/template.sh:341-345 | a name without capitals and underscores is safe wherever the paths are |
| `TemplateNames.PathIsNotASafeName` | lxc/template.sh:341-345 | a container named PATH is not: the passes differ from the simultaneous replacement on some text |
| `TemplateNames.NamesEndingInLAreNotSafe` | lxc/template.sh:341-345 | nor is one whose path, ending in its name, ends in L |
| `TemplateScript.ProcessedConservesLines` | lxc/template.sh:177-246 | after the rewriting every original line is there exactly as often as before, plus the distribution's lines and three headings |
| `TemplateScript.PartsAreStable` | lxc/template.sh:177-198 | each part holds only lines of its kind and in their original order |
| `TemplateScript.TwoPassesPartition` | lxc/template.sh:177-198 | the two extracting passes, in this order, split the lines into network, other lxc and remaining lines |
| `TemplateScript.KindOfLine` | lxc/template.sh:184-192 | a line belongs to the network part if and only if lxc.net.0 stands somewhere in it, dots matching any character, and to the other extracted part if and only if not that but lxc and one more character does |
| `TemplateScript.ProcessedIsArranged` | lxc/template.sh:233-246 | the place of every line of the rewritten configuration: plain lines first, then the distribution's, then the other lxc lines, then the network's, each part in its original order behind its own heading, and nothing else |
| `TemplateScript.SwappedPassesFindNoNetwork` | lxc/template.sh:184-192 | the other way round there would be no network part, since every network line is an lxc line |
| `TemplateScript.Greps` | lxc/template.sh:184-192 | the line contains the pattern, where a dot stands for any character |
| `TemplateScript.Files.ExtractConfig` | lxc/template.sh:177-198 | configuration, network file and extra file hold the three parts; other files are untouched |
| `TemplateScript.Files.AddBack` | lxc/template.sh:209-231 | a part is appended under its heading and its file removed |
| `TemplateScript.Files.ProcessConfig` | lxc/template.sh:233-246 | without a distribution file nothing happens; otherwise every line stands in its place, the distribution's between the plain and the extracted ones, and both intermediate files are gone |
| `TemplateScript.Files.Substitute` | lxc/template.sh:341 | every line of one file has one token replaced, no other file changes |
| `TemplateScript.Files.SubstituteAll` | lxc/template.sh:341-345 | one file gets one pass per token, in order |
| `TemplateScript.Files.ReplaceTemplateVars` | lxc/template.sh:335-349 | for any values a file gets the five passes once for every time it is listed and no other file changes; with values that always substitute at once, a file listed once has all tokens replaced at once |
| `ContainerLogs.StepKeepsInv` | app/app/src/main/java/org/lindroid/ui/ContainerManager.java:62-138 | every access of the caller, of a log thread or of a reader keeps map, threads, flags and buffers consistent, if and only if it is not a join given up while its thread is alive |
| `ContainerLogs.OneLiveThread` | app/app/src/main/java/org/lindroid/ui/ContainerManager.java:62-102 | in every interleaving whose interruptions of joins are harmless, a container has at most one live log thread |
| `ContainerLogs.LeavingRemovesItsOwnEntry` | app/app/src/main/java/org/lindroid/ui/ContainerManager.java:97 | the entry a log thread removes is its own, and every other live thread keeps its entry |
| `ContainerLogs.StopLeavesNoThread` | app/app/src/main/java/org/lindroid/ui/ContainerManager.java:104-121 | when stop removes the entry none of the container's threads is alive, so nothing live loses its entry |
| `ContainerLogs.BufferShowsFetchedChunks` | app/app/src/main/java/org/lindroid/ui/ContainerManager.java:72-80 | over every run with harmless interruptions a buffer is, each with a newline, the chunks that fetchLogs returned for its container and that Java's trim does not leave empty, in order, from the last clear to the last append |
| `ContainerLogs.BlankIsTrimmedAway` | app/app/src/main/java/org/lindroid/ui/ContainerManager.java:76 | a chunk is skipped if and only if nothing is left of it when leading and trailing characters up to the space are removed |
| `ContainerLogs.FlagDecides` | app/app/src/main/java/org/lindroid/ui/ContainerManager.java:72-97 | a log thread leaves its loop if and only if it finds its flag lowered, and goes on to fetch if it finds it raised |
| `ContainerLogs.LoweredStep` | app/app/src/main/java/org/lindroid/ui/ContainerManager.java:72-97 | with the flag lowered every step brings the thread closer to its end and it stores at most one more chunk |
| `ContainerLogs.JoinIsNotBlocked` | app/app/src/main/java/org/lindroid/ui/ContainerManager.java:110-118 | while stop waits its thread can move and comes closer to its end |
| `ContainerLogs.InterruptedJoinDoubles` | app/app/src/main/java/org/lindroid/ui/ContainerManager.java:112-120 | a stop whose join is given up, followed at once by a start, leaves two live threads if and only if the first was still alive |
| `ContainerLogs.DoubledThread` | app/app/src/main/java/org/lindroid/ui/ContainerManager.java:112-120 | a reachable state in which that happens |
| `ContainerLogs.LaunchedInFiveSteps` | app/app/src/main/java/org/lindroid/ui/ContainerManager.java:62-101 | an undisturbed start raises the flag, keeps an existing buffer and ends with one more running thread that owns the entry |
| `ContainerLogs.ContainerManager.StartFetchingLogs` | app/app/src/main/java/org/lindroid/ui/ContainerManager.java:62-102 | refused exactly if there is an entry; otherwise the object performs those five accesses |
| `ContainerLogs.ContainerManager.Step` | app/app/src/main/java/org/lindroid/ui/ContainerManager.java:71-97 | a log thread's next step on the real maps and buffers |
| `ContainerLogs.ContainerManager.StopFetchingLogs` | app/app/src/main/java/org/lindroid/ui/ContainerManager.java:104-121 | afterwards no live thread and no entry of the container is left, other entries and buffers are as before, and without an entry nothing happens |
| `ContainerLogs.ContainerManager.GetBufferedLogs` | app/app/src/main/java/org/lindroid/ui/ContainerManager.java:123-129 | empty for an unknown container, otherwise the chunks stored since the last clear |
| `ContainerLogs.ContainerManager.ClearLogBuffer` | app/app/src/main/java/org/lindroid/ui/ContainerManager.java:131-138 | what is stored is dropped, a chunk still in flight is not |
| `LxcContainers.StepKeepsInv` | perspectived/LXCContainerManager.cpp:78-243 | every call and self-exit keeps running containers defined, mapped terminals open and different, and no close or read of anything else |
| `LxcContainers.RunsAreSafe` | perspectived/LXCContainerManager.cpp:78-243 | in every run this holds, and the number of open terminals out of the map is exactly the number of overwriting starts |
| `LxcContainers.LeaksExactlyOnOverwrite` | perspectived/LXCContainerManager.cpp:98-107 | a terminal leaves the map while open if and only if a start captures output of a container that is not running and whose old terminal is still mapped |
| `LxcContainers.StrandedExactly` | perspectived/LXCContainerManager.cpp:78-243 | a terminal becomes one that no stop can close if and only if a start overwrites it or its container is deleted without a stop, and stops being one if and only if that container is added again |
| `LxcContainers.StrandedInRuns` | perspectived/LXCContainerManager.cpp:78-243 | in every run the number of terminals that no stop can close is that of the stranded ones less the reclaimed ones |
| `LxcContainers.LostTerminal` | perspectived/LXCContainerManager.cpp:98-107 | a run that loses a terminal: add, start, exit by itself, start |
| `LxcContainers.AbandonedTerminal` | perspectived/LXCContainerManager.cpp:119-124 | a run that strands a terminal without overwriting it: add, start, exit by itself, delete |
| `LxcContainers.StopRemovesTheMapping` | perspectived/LXCContainerManager.cpp:119-137 | stop on a defined container forgets its terminal and closes exactly that descriptor, even when the container does not stop |
| `LxcContainers.StartAnswers` | perspectived/LXCContainerManager.cpp:78-117 | a positive answer means the container runs; after a negative one it runs if and only if it came up but no terminal could be had; exactly the captured terminal is opened and mapped, and an undefined container changes nothing |
| `LxcContainers.StopAnswers` | perspectived/LXCContainerManager.cpp:119-137 | true if and only if the container is defined and was not running or lxc could stop it; no other container is affected |
| `LxcContainers.AddAnswers` | perspectived/LXCContainerManager.cpp:183-219 | true if and only if the id has at most fifty letters and digits, is neither running nor defined, and liblxc creates the container; then exactly it becomes defined |
| `LxcContainers.DeleteAnswers` | perspectived/LXCContainerManager.cpp:221-243 | true if and only if the container is defined, not running and destroyed by liblxc; then exactly it is gone |
| `LxcContainers.DeleteUndoesAdd` | perspectived/LXCContainerManager.cpp:183-243 | adding succeeds exactly for a valid id that is not defined, and deleting restores the state before |
| `LxcContainers.CStringKeeps` | perspectived/LXCContainerManager.cpp:157 | a C string is what was read up to the first NUL, and all of it exactly if there is none |
| `LxcContainers.FetchedIsConsumed` | perspectived/LXCContainerManager.cpp:139-168 | one fetch returns every byte it consumed, however the reads were split, if and only if none of them is NUL |
| `LxcContainers.NulCutsOutput` | perspectived/LXCContainerManager.cpp:154-157 | the same output with a NUL is fetched differently when read in one or in two portions, never whole |
| `LxcContainers.HungUpNeverReturns` | perspectived/LXCContainerManager.cpp:152-165 | a terminal that is hung up without data keeps the loop going for any number of wakeups |
| `LxcContainers.SplitsDoNotMatter` | perspectived/LXCContainerManager.cpp:139-168 | two observers of the same NUL-free output collect the same text over any number of fetches and any split of the reads |
| `LxcContainers.LXCContainerManager.StartContainer` | perspectived/LXCContainerManager.cpp:78-117 | the object starts a defined container that is not running and records the terminal only if one was captured |
| `LxcContainers.LXCContainerManager.StopContainer` | perspectived/LXCContainerManager.cpp:119-137 | terminal and mapping go whatever lxc answers |
| `LxcContainers.LXCContainerManager.FetchContainerLogs` | perspectived/LXCContainerManager.cpp:139-168 | over any polls, the loop collects the C strings of the reads, and it has returned within them if and only if one was quiet, the end of the stream or an error |
| `LxcContainers.LXCContainerManager.IsValidId` | perspectived/LXCContainerManager.cpp:184-185 | the span comparison accepts exactly ids of at most fifty letters and digits, the empty one included |
| `LxcContainers.LXCContainerManager.ContainerAdd` | perspectived/LXCContainerManager.cpp:183-219 | only a valid id that is neither running nor defined becomes defined, and only if creation succeeds |
| `LxcContainers.LXCContainerManager.ContainerDelete` | perspectived/LXCContainerManager.cpp:221-243 | only a defined container that is not running is removed |

## Left out

- Real binder, JNI, liblxc, uinput, AHardwareBuffer and SurfaceFlinger calls: their results are parameters
  (`createFromWindow` may return nothing, `dup` and `open` may fail, a read may return any portion).
- Completions: a completion may begin any number of times for an applied transaction, which only adds runs.
- The hardware buffer handle of `setBuffer` and its release after a failed import.
- `native-lib.cpp`: forwarding, and waiting for the composer to exist.
- Floating-point rounding and NaN: rates are reals, with the fallback for values outside (1, 1000).
- A null callback passed to `registerCallback`, `onAppForegroundChanged`, `getUiRunning` and the calls that only log.
- How often input devices are restarted: reconfiguring for the same size is not without effect, only the size is compared.
- The window is taken to have the size last reported by `surfaceChanged`, and a surface to be destroyed before
  the next one is created; the branch of `triggerSurfaceChanged` without a handler does not occur after `onCreate`.
- The kernel's input core appears only as the rule that undeclared events are dropped; a write is taken to succeed
  on an open descriptor.
- `DisplayActivity.onTouch` forwards only DOWN, MOVE and UP; touch properties are about the native entry points.
- The values of the template variables are literal: no sed metacharacter, no line break; the paths are absolute;
  file names contain no semicolon, and files end with a newline.
- The rest of `lxc/template.sh`: unpacking, the user-namespace check, the static configuration text.
- Start and stop of log fetching come from one thread, as in the app.
- Log listeners, and a log thread that ends by an exception other than those it catches.
- Concurrent calls into `LXCContainerManager`, whose map has no lock, are taken to come one at a time; the
  descriptor that `console_getfd` itself returns, and the temporary one of `containerAdd`.
- `AudioSocketServer`, `LauncherActivity`, `drawLogs`, the list of containers, build files and policies.
