# Bluetooth client, scheduling and buffer loops of the audio framework, verified

A Dafny model of the parts of the audio framework that keep state across calls, with proofs of what
they keep over every run. `dafny verify dfyconfig.toml` checks the whole project.

## What is modelled

**Device registry** (`config_vector.dfy`, `device_registry.dfy`, `device_manager.dfy`). The media and
the hands-free device manager are one class, `BluetoothDeviceManager`, with a profile: their handlers
are the same code except for user selection, the stop-virtual-call request and what is announced, and
the class asks for the profile there. A remote device is its address, so the connected map is the set
of its keys. What a device or the audio service answers (category, wear detection, wearing) is input.
Each handler is proved against a function of the old state; the properties are proved of those
functions, over every run:

- `action_effects.dfy`: what each action comes to, said of containers and announcements themselves.
- `device_automaton.dfy`: the registry seen at one address is a small automaton of that device alone.
- `registry_invariant.dfy`: the invariant over the five containers, and exactly when a device is on one
  list only.
- `observer_mirror.dfy`: the announcements alone rebuild the connected devices, their lists, and the
  virtual devices.
- `recency.dfy`: the order of the privacy list, and what selecting a watch makes of it.
- `stop_virtual_call.dfy`: the one-shot handshake of a stop request with an SCO disconnect.
- `device_lifecycle.dfy`: teardown over a snapshot, and the reconnection pass.

**SCO link controller** (`sco_control.dfy`, `sco_properties.dfy`, `sco_outcomes.dfy`, `hfp_manager.dfy`,
`a2dp_manager.dfy`). Commands of the audio policy and callbacks of the gateway are inputs of one system
that holds the registry, the controller's fields and the stop handle. The gateway is an object with
arbitrary answers that records its calls. `sco_outcomes.dfy` says what each command achieves and which
calls it makes; `sco_properties.dfy` follows the call link, with the device it was opened on (the one that a
recorded call last made active), from the recorded calls and from the reports that name that device;
what the controller itself takes for the active device has no part in it.

**Locks** (`lock_order.dfy`). Every handler, on every branch, is a list of nested lock scopes; threads
run any handlers in any interleaving.

**Smaller cores.** `audio_schedule.dfy` (threads reported again after the scheduler service restarts),
`schedule_guard.dfy` (move-only guards that own a report), `descriptor_array.dfy` with `block_heap.dfy`
(arrays handed to C callers), `stream_loops.dfy` (partial writes, exact reads).

Registry and link properties are about serialized events: the handlers check membership and act under
separate locks, so each action or event is one step there. Only the deadlock property is about
interleavings. Gateway, media source and observer do not call back into the managers while they are
being called. Both managers share one registered observer in the code; here each manager has a flag for
it, and a note says which profile it comes from.

## What turned out not to hold, and the exact conditions

- A connected device can be on two lists: a wear action on a common device puts it on the privacy or
  negative list as well. `OneListIff` gives the condition in both directions.
- Clearing everything is silent. The observer stays right exactly when no device was connected any more
  (`ClearKeepsMirrorIff`); the teardown path guarantees that (`TeardownKeepsMirror`). It does not for
  virtual devices: the observer goes on believing in every one that a teardown drops
  (`TeardownKeepsVirtualIff`).
- After a switch between call categories whose second half failed, the recorded scene stands for a link
  that is down, and a retry of the recorded category is ignored. `LinkAgreement` says exactly when.
- Recognition can be opened during a commanded call if an SCO-connected report has meanwhile found a
  policy scene without a call (`DefaultPolicySceneIsNotEnough`), or if a report made another device the
  active one and that device is then reported lost (`LateReportIsNotEnough`); in the second case no
  command can close the call's link any more. `ConsistentIff` gives the condition on reports in both
  directions: a link that comes up finds a policy scene that fits an open link and a recognition, and
  the active device is reported lost only while no commanded link is open on another device.
- The active device can be one that is not connected, exactly after the inputs in `Strands`.
- A move assignment between two equal guards that both still owe a report, or of a guard to itself,
  loses a report; `BalancedIff` shows that nothing else does.

## Model

| member | source | states |
|---|---|---|
| ConfigVector.AddDeviceInConfigVector | frameworks/native/bluetoothclient/bluetooth_device_manager.cpp:397-408 | the search loop appends an absent device at the end and leaves a present one where it is |
| ConfigVector.RemoveDeviceInConfigVector | frameworks/native/bluetoothclient/bluetooth_device_manager.cpp:410-421 | the search loop erases one match, the first, and nothing else |
| ConfigVector.EraseCompleteIff | frameworks/native/bluetoothclient/bluetooth_device_manager.cpp:410-421 | one erasure removes a device completely if and only if it occurs at most once |
| ConfigVector.EraseTakesFirst | frameworks/native/bluetoothclient/bluetooth_device_manager.cpp:410-421 | an erasure takes out the first occurrence, and what is before and behind it stays in order |
| DeviceManager.BluetoothDeviceManager.SetStack | frameworks/native/bluetoothclient/bluetooth_device_manager.cpp:520-563 | dispatch of every action code, unknown ones included: whole new registry, everything announced, and the stop handle set only by a hands-free stop request (media twin at 145-185) |
| DeviceManager.BluetoothDeviceManager.NotifyToUpdateAudioDevice | frameworks/native/bluetoothclient/bluetooth_device_manager.cpp:423-448 | the connected devices change whether or not an observer is registered, the announcement needs one (hands-free twin at 829-856) |
| DeviceManager.BluetoothDeviceManager.HandleConnectDevice | frameworks/native/bluetoothclient/bluetooth_device_manager.cpp:187-223 | ignored when connected; otherwise taken off the negative list, placed by category and wear detection, and announced with the category of its place (twin at 565-600) |
| DeviceManager.BluetoothDeviceManager.HandleDisconnectDevice | frameworks/native/bluetoothclient/bluetooth_device_manager.cpp:225-242 | ignored when not connected; otherwise gone from all five containers, and one removal announced (twin at 602-618) |
| DeviceManager.BluetoothDeviceManager.HandleWearDevice | frameworks/native/bluetoothclient/bluetooth_device_manager.cpp:244-264 | a connected device becomes the newest privacy device, with a wear record (twin at 620-641) |
| DeviceManager.BluetoothDeviceManager.HandleUnwearDevice | frameworks/native/bluetoothclient/bluetooth_device_manager.cpp:266-285 | a connected device moves to the negative list, with an unworn record (twin at 643-664) |
| DeviceManager.BluetoothDeviceManager.HandleEnableUpdate | frameworks/native/bluetoothclient/bluetooth_device_manager.cpp:287-317 | enabling and disabling announce connected devices only, and change nothing (twin at 666-696) |
| DeviceManager.BluetoothDeviceManager.HandleWearEnable | frameworks/native/bluetoothclient/bluetooth_device_manager.cpp:319-344 | the recorded wear state decides the list and the category announced; a missing record counts as unworn here (twin at 698-723) |
| DeviceManager.BluetoothDeviceManager.HandleWearDisable | frameworks/native/bluetoothclient/bluetooth_device_manager.cpp:346-363 | a connected device becomes the newest privacy device and its wear record stays (twin at 725-742) |
| DeviceManager.BluetoothDeviceManager.FindWornFromEnd | frameworks/native/bluetoothclient/bluetooth_device_manager.cpp:749-759 | the backward search finds the last device not marked unworn; of all records it looks up it creates at most the one of the device found |
| DeviceManager.BluetoothDeviceManager.HandleUserSelection | frameworks/native/bluetoothclient/bluetooth_device_manager.cpp:744-765 | selection of a watch in the hands-free manager is announced for the device found, every other selection for itself (media twin at 365-371) |
| DeviceManager.BluetoothDeviceManager.HandleStopVirtualCall | frameworks/native/bluetoothclient/bluetooth_device_manager.cpp:767-777 | the handle waits for this device, whatever it waited for before, and one disconnecting thread is started |
| DeviceManager.BluetoothDeviceManager.HandleVirtualConnectDevice | frameworks/native/bluetoothclient/bluetooth_device_manager.cpp:373-383 | an unconnected device is on the negative list and announced as virtual, a connected one untouched (twin at 779-789) |
| DeviceManager.BluetoothDeviceManager.HandleRemoveVirtualConnectDevice | frameworks/native/bluetoothclient/bluetooth_device_manager.cpp:385-395 | an unconnected device leaves the negative list and its removal is announced even if it was not there (twin at 791-801) |
| DeviceManager.BluetoothDeviceManager.GetAllBluetoothDevice | frameworks/native/bluetoothclient/bluetooth_device_manager.cpp:485-494 | a copy with every connected device once (twin at 892-901) |
| DeviceManager.BluetoothDeviceManager.ClearAllBluetoothDevice | frameworks/native/bluetoothclient/bluetooth_device_manager.cpp:505-518 | all five containers empty, nothing announced (twin at 903-916) |
| DeviceManager.BluetoothDeviceManager.OnScoStateChanged | frameworks/native/bluetoothclient/bluetooth_device_manager.cpp:918-943 | a matching waiting handle turns the disconnect into a suspension and is used up; a connection leaves it alone |
| ActionEffects.ConnectEffect | frameworks/native/bluetoothclient/bluetooth_device_manager.cpp:187-223 | for each category and each answer about wear detection, which list a connecting device is on and under which category and state it is announced; a watch and a headphone that detects wearing start negative (twin at 565-600) |
| ActionEffects.DisconnectEffect | frameworks/native/bluetoothclient/bluetooth_device_manager.cpp:225-242 | a disconnecting device is in none of the containers, no other device changes, and one removal is announced in the state of the profile (twin at 602-618) |
| ActionEffects.WearEffect | frameworks/native/bluetoothclient/bluetooth_device_manager.cpp:244-363 | which wear action records what, after which the device is the newest privacy device and after which the newest negative one, and the category announced with it (twins at 620-742) |
| ActionEffects.RemoteEnableEffect | frameworks/native/bluetoothclient/bluetooth_device_manager.cpp:287-317 | enabling is announced as enabled, disabling as disabled, each for connected devices only; the registry stays (twins at 666-696) |
| ActionEffects.VirtualEffect | frameworks/native/bluetoothclient/bluetooth_device_manager.cpp:373-395 | an added virtual device is negative and announced as added, a removed one is off the list and announced as removed; a connected device ignores both (twins at 779-801) |
| ActionEffects.OwnSelectionEffect | frameworks/native/bluetoothclient/bluetooth_device_manager.cpp:365-371 | every selection in the media manager, and every one but a watch in the hands-free manager, announces the selected device itself and changes nothing (hands-free code at 744-765) |
| ActionEffects.OtherActionsEffect | frameworks/native/bluetoothclient/bluetooth_device_manager.cpp:145-185 | no other action code changes the registry or announces anything (twin at 520-563) |
| ActionEffects.NotesAreOwn | frameworks/native/bluetoothclient/bluetooth_device_manager.cpp:423-462 | neither manager announces anything under the name of the other (twin at 829-869) |
| DeviceAutomaton.StepProjects | frameworks/native/bluetoothclient/bluetooth_device_manager.cpp:187-421 | at every address, any action is that address's automaton step, or nothing, or a wear record created by a look-up; lists stay free of duplicates |
| DeviceAutomaton.RunProjects | frameworks/native/bluetoothclient/bluetooth_device_manager.cpp:520-827 | per-device refinement in both managers: after any run, connection, wear record and list memberships of an address are what its automaton reaches on what reached that address |
| DeviceAutomaton.MediaDevicesNeverInterfere | frameworks/native/bluetoothclient/bluetooth_device_manager.cpp:145-421 | in the media manager that is the address's own actions (and clearings) and nothing else |
| DeviceAutomaton.LookUpTouchesWearOnly | frameworks/native/bluetoothclient/bluetooth_device_manager.cpp:748-760 | the only interference in the hands-free manager: one missing wear record of one privacy device, every other device unchanged |
| RegistryInvariant.StepKeepsInv | frameworks/native/bluetoothclient/bluetooth_device_manager.cpp:187-421 | every action and the clearing keep the registry invariant, in both managers |
| RegistryInvariant.RunKeepsInv | frameworks/native/bluetoothclient/bluetooth_device_manager.cpp:520-827 | the invariant holds after every run from the empty registry |
| RegistryInvariant.InvOfContainers | frameworks/native/bluetoothclient/bluetooth_device_manager.cpp:53-65 | what the invariant means for the five containers: lists without duplicates; privacy and negative disjoint; privacy and common within the connected devices, and these within the three lists; records only for connected devices; recorded as worn only on the privacy list |
| RegistryInvariant.OneListIff | frameworks/native/bluetoothclient/bluetooth_device_manager.cpp:244-285 | devices stay on one list each if and only if the step is not a wear action on a common device |
| RegistryInvariant.RunOneListEach | frameworks/native/bluetoothclient/bluetooth_device_manager.cpp:244-363 | over runs without such steps every connected device is on exactly one list |
| ObserverMirror.EventKeepsMirror | frameworks/native/bluetoothclient/bluetooth_device_manager.cpp:423-462 | what the observer hears of one action keeps its book of devices and categories in step with the registry |
| ObserverMirror.ClearKeepsMirrorIff | frameworks/native/bluetoothclient/bluetooth_device_manager.cpp:505-518 | a silent clearing leaves the observer right if and only if nothing was connected |
| ObserverMirror.LogMirrorsRegistry | frameworks/native/bluetoothclient/bluetooth_device_manager.cpp:187-462 | over every run of either manager, replaying the log gives exactly the connected devices, and the last category announced for each determines its list and is determined by it |
| ObserverMirror.EventKeepsVirtual | frameworks/native/bluetoothclient/bluetooth_device_manager.cpp:450-462 | what the observer hears of one action keeps its book of virtual devices equal to the unconnected devices of the negative list |
| ObserverMirror.LogTellsVirtual | frameworks/native/bluetoothclient/bluetooth_device_manager.cpp:373-395 | over every run of either manager without a clearing of virtual devices, replaying the log gives exactly the virtual devices |
| Recency.LastPromotionIsLatest | frameworks/native/bluetoothclient/bluetooth_device_manager.cpp:565-641 | the promotion used to order devices really is the latest step of the run that promotes the device |
| Recency.PrivacyIsOldestFirst | frameworks/native/bluetoothclient/bluetooth_device_manager.cpp:803-827 | after every run the privacy list holds only promoted devices, in the order of their latest promotions |
| Recency.WatchForwardsToLatest | frameworks/native/bluetoothclient/bluetooth_device_manager.cpp:744-765 | a watch is forwarded to the privacy device promoted last among those not marked unworn, or to itself if there is none, and at most that device's missing wear record is created |
| StopVirtualCall.WaitingIff | frameworks/native/bluetoothclient/bluetooth_device_manager.cpp:767-777 | the handle waits for a device if and only if the latest request of the run is for it and no disconnect of it came since; waiting for none, it is in its initial state |
| StopVirtualCall.SuspendedIff | frameworks/native/bluetoothclient/bluetooth_device_manager.cpp:918-943 | a link that comes up is announced as connected; a disconnect as suspended if and only if it answers a request or its own reason says the remote user ended the call, and as deactivated otherwise |
| StopVirtualCall.OneShot | frameworks/native/bluetoothclient/bluetooth_device_manager.cpp:926-938 | between two disconnects that are announced as suspended against their own reasons there is a new request, and the later one answers it |
| StopVirtualCall.RewritesWithinRequests | frameworks/native/bluetoothclient/bluetooth_device_manager.cpp:926-938 | over every run such disconnects never outnumber the requests, and while the handle waits they are fewer |
| ScoControl.SystemProjects | frameworks/native/bluetoothclient/audio_bluetooth_manager.cpp:573-632 | every run of the hands-free system is a run of the registry and a run of the handshake, so their properties hold of it |
| ScoProperties.CommandAgreement | frameworks/native/bluetoothclient/audio_bluetooth_manager.cpp:451-504 | one command keeps the link none or as the recorded scene says, and which of its calls failing makes them differ |
| ScoProperties.LinkAgreement | frameworks/native/bluetoothclient/audio_bluetooth_manager.cpp:418-518 | over every run of commands with arbitrary answers the open link is none or the scene's category, and equals it if and only if no switch was lost since they last agreed |
| ScoProperties.ConsistentIff | frameworks/native/bluetoothclient/audio_bluetooth_manager.cpp:573-613 | any command or report keeps link, scene and recognition consistent if and only if it is neither an SCO-connected report that finds a policy scene at odds with an open link or a recognition, nor a report that the active device is lost while a commanded link is open on another device |
| ScoProperties.RecognitionExcludesCalls | frameworks/native/bluetoothclient/audio_bluetooth_manager.cpp:384-411 | over such runs recognition excludes call scene and call link, is opened only without a commanded link, and a call link is connected only while none is open and never during recognition |
| ScoProperties.RecognitionIsTracked | frameworks/native/bluetoothclient/audio_bluetooth_manager.cpp:384-411 | over every run, link events included, the category is recognition exactly while the gateway's recorded calls leave a recognition open; none is opened twice and only an open one is closed |
| ScoProperties.DefaultPolicySceneIsNotEnough | frameworks/native/bluetoothclient/audio_bluetooth_manager.cpp:585-592 | a concrete run without any report during recognition, after which recognition is opened while a commanded call link is up |
| ScoProperties.LateReportIsNotEnough | frameworks/native/bluetoothclient/audio_bluetooth_manager.cpp:579-584 | a concrete run of two devices whose SCO-connected reports all fit and which strands nothing: after a late disconnect report about one device the call link of the other is still open, no command closes it, and recognition is opened beside it |
| ScoProperties.ActiveSafeIff | frameworks/native/bluetoothclient/audio_bluetooth_manager.cpp:573-619 | the active device stays the default or a connected one if and only if the input is none of the three stranding ones |
| ScoProperties.ActiveDeviceSafety | frameworks/native/bluetoothclient/audio_bluetooth_manager.cpp:531-613 | over runs without stranding inputs the active device is always the default or a connected one |
| ScoProperties.SetActiveOutcome | frameworks/native/bluetoothclient/audio_bluetooth_manager.cpp:418-441 | exactly when making a device active succeeds; the gateway is asked last; a switch leaves no call scene, a failure keeps the active device, and both keep link and scene in agreement |
| ScoOutcomes.SceneCategories | frameworks/native/bluetoothclient/audio_bluetooth_manager.cpp:506-518 | which scenes stand for a cellular link and which for a virtual one, and that none stands for recognition |
| ScoOutcomes.IgnoredScene | frameworks/native/bluetoothclient/audio_bluetooth_manager.cpp:451-472 | a scene command during recognition, without a change of category, or for a ring that the remote device plays by itself makes no call, changes nothing and succeeds |
| ScoOutcomes.SceneOutcome | frameworks/native/bluetoothclient/audio_bluetooth_manager.cpp:473-486 | any other scene command: the calls it makes in order, that it succeeds exactly with a gateway that answers each needed call well, and the scene then recorded; a failure records nothing |
| ScoOutcomes.SceneCommandLink | frameworks/native/bluetoothclient/audio_bluetooth_manager.cpp:451-487 | after every run of commands or compatible run: a scene command that succeeds leaves the link of the requested category, or none for a scene without a call; a failed connection leaves no link, a failed disconnection leaves the link as it was |
| ScoOutcomes.DisconnectOutcome | frameworks/native/bluetoothclient/audio_bluetooth_manager.cpp:489-504 | exactly when disconnecting succeeds, its one call, and the scene afterwards |
| ScoOutcomes.DisconnectClosesLink | frameworks/native/bluetoothclient/audio_bluetooth_manager.cpp:489-504 | after every such run a good disconnect leaves neither a call link nor a call scene, a failed one leaves the link |
| ScoOutcomes.RecognitionOutcome | frameworks/native/bluetoothclient/audio_bluetooth_manager.cpp:384-411 | opening and closing recognition: when the gateway is asked and for what, that the request succeeds and takes effect exactly if it agrees, and that without a gateway it fails |
| ScoOutcomes.RecognitionCommandSession | frameworks/native/bluetoothclient/audio_bluetooth_manager.cpp:384-411 | after every run: a request to close that succeeds leaves no recognition open, a request to open that succeeds without a call scene leaves one open, and a request that fails leaves what there was |
| ScoOutcomes.SetActiveCalls | frameworks/native/bluetoothclient/audio_bluetooth_manager.cpp:418-441 | making a device active closes the link of another device first and stops if that fails; which calls are made, and scene and active device afterwards |
| ScoOutcomes.ScoReportOutcome | frameworks/native/bluetoothclient/audio_bluetooth_manager.cpp:573-596 | a link report makes its device active under the policy's scene, or drops the active device and its scene, or neither, and makes no call |
| ScoOutcomes.ConnectionReportOutcome | frameworks/native/bluetoothclient/audio_bluetooth_manager.cpp:598-613 | a connection report is one action of the registry, dropping the active device and its scene if it is lost; one of a connection in transition is nothing |
| ScoOutcomes.StackActionOutcome | frameworks/native/bluetoothclient/audio_bluetooth_manager.cpp:615-632 | a stack action reaches the registry, and only a stop request reaches the handle |
| ScoOutcomes.SettingsOutcome | frameworks/native/bluetoothclient/audio_bluetooth_manager.cpp:336-353 | the policy's scene and the registration of the gateway change alone and without calls |
| HfpManager.AudioHfpManager.HandleScoWithRecongnition | frameworks/native/bluetoothclient/audio_bluetooth_manager.cpp:384-411 | new state, result and gateway calls of opening and closing recognition, refusals included |
| HfpManager.AudioHfpManager.SetActiveHfpDevice | frameworks/native/bluetoothclient/audio_bluetooth_manager.cpp:418-441 | new state, result and calls, with the link closed first when the device changes |
| HfpManager.AudioHfpManager.ConnectScoWithAudioScene | frameworks/native/bluetoothclient/audio_bluetooth_manager.cpp:451-487 | new state, result and calls on all branches; a failed connect after a good disconnect leaves the scene stale |
| HfpManager.AudioHfpManager.DisconnectSco | frameworks/native/bluetoothclient/audio_bluetooth_manager.cpp:489-504 | new state, result and calls; nothing is called without a call scene |
| HfpManager.AudioHfpManager.OnScoStateChanged | frameworks/native/bluetoothclient/audio_bluetooth_manager.cpp:573-596 | scene, active device and stop handle after a link report, and what is announced of it; other states are ignored |
| HfpManager.AudioHfpManager.OnConnectionStateChanged | frameworks/native/bluetoothclient/audio_bluetooth_manager.cpp:598-613 | losing the active device resets scene and active device before the registry forgets it |
| HfpManager.AudioHfpManager.OnHfpStackChanged | frameworks/native/bluetoothclient/audio_bluetooth_manager.cpp:615-632 | stack actions, virtual ones included, reach the registry and the handle and nothing of the controller |
| HfpManager.AudioHfpManager.DisconnectBluetoothHfpSink | frameworks/native/bluetoothclient/audio_bluetooth_manager.cpp:520-529 | one removal announced for each connected device, all five containers empty, scene and active device reset exactly if the active device was connected, and so a safe active device is the default one afterwards |
| HfpManager.AudioHfpManager.CheckHfpDeviceReconnect | frameworks/native/bluetoothclient/audio_bluetooth_manager.cpp:355-382 | the two loops carry out exactly the events of one pass, on the registry and towards the observer, and take up no stop request |
| A2dpManager.AudioA2dpManager.OnConnectionStateChanged | frameworks/native/bluetoothclient/audio_bluetooth_manager.cpp:284-295 | every state is recorded, and only connecting and disconnecting reach the registry |
| A2dpManager.AudioA2dpManager.DisconnectBluetoothA2dpSink | frameworks/native/bluetoothclient/audio_bluetooth_manager.cpp:119-129 | one removal announced for each connected device and all five containers empty, although the loop changes the map it took its snapshot of |
| A2dpManager.AudioA2dpManager.CheckA2dpDeviceReconnect | frameworks/native/bluetoothclient/audio_bluetooth_manager.cpp:245-274 | the two loops carry out exactly the events of one pass, and neither the observer's registration nor the stop handle changes |
| DeviceLifecycle.TeardownDrains | frameworks/native/bluetoothclient/audio_bluetooth_manager.cpp:119-129 | disconnecting a snapshot announces exactly its removals and leaves only the unconnected entries of the negative list to the clearing |
| DeviceLifecycle.TeardownKeepsMirror | frameworks/native/bluetoothclient/audio_bluetooth_manager.cpp:520-529 | after a teardown the observer's book is empty, as the registry is |
| DeviceLifecycle.TeardownKeepsVirtualIff | frameworks/native/bluetoothclient/audio_bluetooth_manager.cpp:520-529 | a teardown tells the observer of none of the virtual devices it drops, so its book of them is right afterwards if and only if there were none |
| DeviceLifecycle.PassOutcome | frameworks/native/bluetoothclient/audio_bluetooth_manager.cpp:245-274 | one pass, seen at any device and told from the answers alone: who is connected, whose wear record is made, and the list of each (hands-free pass at 355-382) |
| DeviceLifecycle.ReconnectIsIdempotent | frameworks/native/bluetoothclient/audio_bluetooth_manager.cpp:245-274 | a second pass with unchanged answers changes no device and announces no real addition; after the first, every reported device is connected, every unconnected virtual one negative, and exactly the reported devices that detect wearing and say they are worn have been recorded as worn and are on the privacy list (hands-free pass at 355-382) |
| LockOrder.ActivityClimbs | frameworks/native/bluetoothclient/bluetooth_device_manager.cpp:319-344 | every handler, on every branch, nests its locks upwards in one global order |
| LockOrder.NestingIsExact | frameworks/native/bluetoothclient/bluetooth_device_manager.cpp:744-765 | which lock is ever taken inside which, over all handlers and branches: exactly the listed kinds of nesting, no more and none missing |
| LockOrder.ScopesAreOrderly | frameworks/native/bluetoothclient/audio_bluetooth_manager.cpp:418-441 | lock scopes that climb, nested to any depth, become operations that always acquire above what is held and release the innermost lock |
| LockOrder.FindRunnable | frameworks/native/bluetoothclient/bluetooth_device_manager.cpp:48-66 | following who waits for whom from any thread with work ends at a thread that can step |
| LockOrder.DeadlockFree | frameworks/native/bluetoothclient/audio_bluetooth_manager.cpp:36-47 | any number of threads, each running any handlers in turn, after any interleaving: while work remains some thread can step |
| LockOrder.ScheduleDoesWork | frameworks/native/bluetoothclient/audio_bluetooth_manager.cpp:44-47 | every step does one operation, so threads that keep stepping finish all their work |
| AudioSchedule.ThreadReporter.ScheduleThreadInServer | frameworks/native/audioschedule/audio_schedule.cpp:91-99 | the thread is kept and reported, also when it was kept already |
| AudioSchedule.ThreadReporter.UnscheduleThreadInServer | frameworks/native/audioschedule/audio_schedule.cpp:81-89 | the thread is forgotten and its default level reported, also when it was not kept |
| AudioSchedule.ThreadReporter.OnAddResSchedService | frameworks/native/audioschedule/audio_schedule.cpp:101-108 | every kept thread is reported exactly once |
| AudioSchedule.ReportsMakeStep | frameworks/native/audioschedule/audio_schedule.cpp:60-108 | the reports of a call, received in any order of a replay, have the effect the run assumes |
| AudioSchedule.KeptIffWanted | frameworks/native/audioschedule/audio_schedule.cpp:81-99 | a thread is kept if and only if its latest call in the server scheduled it |
| AudioSchedule.BoostedIffWanted | frameworks/native/audioschedule/audio_schedule.cpp:101-108 | from the re-adding of the service until its next crash it boosts exactly the threads whose latest call scheduled them, and never any other; right after a crash it boosts none |
| ScheduleGuard.AudioScheduleGuard.constructor | frameworks/native/audioschedule/audio_schedule.cpp:123-128 | a new guard owes the report that it has made |
| ScheduleGuard.AudioScheduleGuard.Move | frameworks/native/audioschedule/audio_schedule.cpp:130-135 | the duty passes to the new guard without any report |
| ScheduleGuard.AudioScheduleGuard.Assign | frameworks/native/audioschedule/audio_schedule.cpp:137-150 | between different guards the old report is taken back at once, the state of the other guard passes over and that one owes nothing any more; between equal guards, or of a guard to itself, nothing is reported |
| ScheduleGuard.AudioScheduleGuard.Destroy | frameworks/native/audioschedule/audio_schedule.cpp:152-157 | a guard takes back its report when it dies, if it still owes it |
| ScheduleGuard.ConstructEffect | frameworks/native/audioschedule/audio_schedule.cpp:123-128 | in any pool of guards a new guard owes exactly the one report made for it |
| ScheduleGuard.MoveConstructEffect | frameworks/native/audioschedule/audio_schedule.cpp:130-135 | what a guard owed is owed by the new guard and no more by the old, without a report |
| ScheduleGuard.AssignEffect | frameworks/native/audioschedule/audio_schedule.cpp:137-150 | after any assignment the guard assigned from owes nothing; between different guards the other has its state, and the reports taken back grow by exactly the one the overwritten guard owed |
| ScheduleGuard.DestroyEffect | frameworks/native/audioschedule/audio_schedule.cpp:152-157 | the reports taken back grow by exactly what the dead guard owed |
| ScheduleGuard.BalancedIff | frameworks/native/audioschedule/audio_schedule.cpp:137-150 | an operation keeps reports, reports taken back and duties in balance if and only if it is not an assignment between equal guards that owe a report |
| ScheduleGuard.GuardsConserveReports | frameworks/native/audioschedule/audio_schedule.cpp:123-157 | over every run without such assignments each report is taken back once or owed by one living guard, and all are taken back when all guards are dead |
| DescriptorArray.ConvertDesc | frameworks/native/ohaudio/OHAudioRoutingManager.cpp:242-279 | an array wrapping the devices in order exactly when the size is valid and all allocations are granted; otherwise null and nothing left allocated |
| DescriptorArray.DestroyAudioDeviceDescriptor | frameworks/native/ohaudio/OHAudioRoutingManager.cpp:219-230 | frees every block of a partly filled array, each once |
| DescriptorArray.ReleaseDevices | frameworks/native/ohaudio/OHAudioRoutingManager.cpp:191-214 | frees exactly the blocks of the array, each once, or nothing when a parameter is missing |
| DescriptorArray.ConvertThenRelease | frameworks/native/ohaudio/OHAudioRoutingManager.cpp:191-279 | converting and releasing leaves the heap as it was, wherever an allocation fails |
| StreamLoops.WriteArrayBufferToNative | frameworks/js/napi/audiorenderer/napi_audio_renderer.cpp:543-574 | the sink gains exactly the first bytes counted, in order; the loop ends only at a negative answer or with at most four bytes left, and does end if the stream never answers 0 |
| StreamLoops.ReadFromNative | frameworks/js/napi/audiocapturer/napi_audio_capturer.cpp:421-452 | for every size: the byte counter overflows exactly when more than the largest int32 was read; a loop that ended succeeds exactly for a positive size without negative reads, and then the next bytes fill the buffer in order; every failure frees it |
| StreamLoops.NonzeroAnswersProgress | frameworks/js/napi/audiorenderer/napi_audio_renderer.cpp:562-570 | answers above 0 move at least a byte each until nothing is left |

## Left out

- StreamLoops.ReadFromNative: what the code does after its byte counter has overflowed, which C++ leaves undefined.
- StreamLoops.WriteArrayBufferToNative: a stream that answers 0 forever keeps the code looping; the model then reports that the loop has not ended after the given answers.
- DeviceManager.BluetoothDeviceManager.GetAllBluetoothDevice: the order of the copy, which the code takes from its sorted map; all results hold for every order.
- ScheduleGuard.AudioScheduleGuard.Assign: what a moved-from name holds, which is left to the caller as an arbitrary string.
- AudioSchedule.BoostedIffWanted: threads boosted by guards, which the code does not report again after a crash.
- Device names, device category tables, encrypted addresses, logging, tracing and timeouts.
- Codec translation, offload, volume and position forwarding, active media sink selection.
- The listener's translation of virtual device codes 0 and 1 to the two virtual actions, and of profile handles to available or not.
- `OnDeviceChange`, which sets the size of its array before filling it.
- All other NAPI code, and the renderer, capturer, session and stream builder wrappers: null checks and forwarding.
- Internals of the gateway, the media source, the observer and the scheduler client.
