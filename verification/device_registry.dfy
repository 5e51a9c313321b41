/**
 The registry of connected, virtual and worn devices, as a specification: one function for the new
 state and one for the announcements of each action. The class that changes its fields step by step
 is in device_manager.dfy.
 */
module DeviceRegistry {
  import opened Wrappers
  import opened BluetoothTypes
  import opened ConfigVector

  datatype WearState = Wear | Unwear

  datatype Registry = Registry(
    connected: set<Address>,
    wear: map<Address, WearState>,
    privacy: seq<Address>,
    common: seq<Address>,
    negative: seq<Address>)

  const EMPTY := Registry({}, map[], [], [], [])

  /** An action on a device, with what the remote device and the audio service answer about it. */
  datatype Event = Event(device: Address, action: int, category: DeviceCategory, wearDetection: bool)

  datatype Step = Act(event: Event) | ClearAll

  datatype Slot = Privacy | Common | Negative

  function Placement(category: DeviceCategory, wearDetection: bool): Slot {
    match category
    case BtHeadphone => if wearDetection then Negative else Privacy
    case BtSoundbox => Common
    case BtCar => Common
    case BtWatch => Negative
    case _ => Privacy
  }

  /** The category announced for a newly connected device. */
  function ConnectCategory(category: DeviceCategory, wearDetection: bool): DeviceCategory {
    match category
    case BtHeadphone => if wearDetection then BtUnwearHeadphone else BtHeadphone
    case BtGlasses => BtGlasses
    case BtSoundbox => BtSoundbox
    case BtCar => BtCar
    case BtWatch => BtWatch
    case _ => BtHeadphone
  }

  function OnConnect(r: Registry, d: Address, category: DeviceCategory, wearDetection: bool): Registry {
    if d in r.connected then r
    else
      var n := EraseFirst(r.negative, d);
      match Placement(category, wearDetection)
      case Privacy => r.(connected := r.connected + {d}, negative := n, privacy := Insert(r.privacy, d))
      case Common => r.(connected := r.connected + {d}, negative := n, common := Insert(r.common, d))
      case Negative => r.(connected := r.connected + {d}, negative := Insert(n, d))
  }

  function OnDisconnect(r: Registry, d: Address): Registry {
    if d !in r.connected then r
    else Registry(r.connected - {d}, r.wear - {d},
                  EraseFirst(r.privacy, d), EraseFirst(r.common, d), EraseFirst(r.negative, d))
  }

  /** The device becomes the newest privacy device. */
  function Promote(r: Registry, d: Address): Registry {
    r.(negative := EraseFirst(r.negative, d), privacy := Insert(EraseFirst(r.privacy, d), d))
  }

  function Demote(r: Registry, d: Address): Registry {
    r.(privacy := EraseFirst(r.privacy, d), negative := Insert(EraseFirst(r.negative, d), d))
  }

  function OnWear(r: Registry, d: Address): Registry {
    if d !in r.connected then r else Promote(r, d).(wear := r.wear[d := Wear])
  }

  function OnUnwear(r: Registry, d: Address): Registry {
    if d !in r.connected then r else Demote(r, d).(wear := r.wear[d := Unwear])
  }

  predicate MarkedWorn(r: Registry, d: Address) {
    d in r.wear && r.wear[d] == Wear
  }

  function OnWearEnable(r: Registry, d: Address): Registry {
    if d !in r.connected then r
    else if MarkedWorn(r, d) then Promote(r, d) else Demote(r, d)
  }

  function OnWearDisable(r: Registry, d: Address): Registry {
    if d !in r.connected then r else Promote(r, d)
  }

  function OnVirtualAdd(r: Registry, d: Address): Registry {
    if d in r.connected then r else r.(negative := Insert(r.negative, d))
  }

  function OnVirtualRemove(r: Registry, d: Address): Registry {
    if d in r.connected then r else r.(negative := EraseFirst(r.negative, d))
  }

  /** The last device of the list that is not marked unworn: a missing record reads as worn. */
  function LastWorn(v: seq<Address>, wear: map<Address, WearState>): Option<Address> {
    if v == [] then None
    else
      var d := v[|v| - 1];
      if d in wear && wear[d] == Unwear then LastWorn(v[..|v| - 1], wear) else Some(d)
  }

  /** The device that a user selection looks up, if it looks for one: only HFP forwards a watch. */
  function Forwarded(p: Profile, r: Registry, category: DeviceCategory): Option<Address> {
    if p == Hfp && category == BtWatch then LastWorn(r.privacy, r.wear) else None
  }

  /** Looking up a wear record that is missing creates it, with the value 0, which is WEAR_ACTION. */
  function OnUserSelection(p: Profile, r: Registry, category: DeviceCategory): Registry {
    match Forwarded(p, r, category)
    case Some(x) => if x in r.wear then r else r.(wear := r.wear[x := Wear])
    case None => r
  }

  function Apply(p: Profile, r: Registry, e: Event): Registry {
    if e.action == CONNECT_ACTION then OnConnect(r, e.device, e.category, e.wearDetection)
    else if e.action == DISCONNECT_ACTION then OnDisconnect(r, e.device)
    else if e.action == WEAR_ACTION then OnWear(r, e.device)
    else if e.action == UNWEAR_ACTION then OnUnwear(r, e.device)
    else if e.action == ENABLE_WEAR_DETECTION_ACTION then OnWearEnable(r, e.device)
    else if e.action == DISABLE_WEAR_DETECTION_ACTION then OnWearDisable(r, e.device)
    else if e.action == USER_SELECTION_ACTION then OnUserSelection(p, r, e.category)
    else if e.action == VIRTUAL_DEVICE_ADD_ACTION then OnVirtualAdd(r, e.device)
    else if e.action == VIRTUAL_DEVICE_REMOVE_ACTION then OnVirtualRemove(r, e.device)
    else r
  }

  function Next(p: Profile, r: Registry, s: Step): Registry {
    match s
    case Act(e) => Apply(p, r, e)
    case ClearAll => EMPTY
  }

  /** The connection state announced for a device that is connected or removed. */
  function LinkState(p: Profile): ConnectState {
    if p == A2dp then Connected else DeactiveConnected
  }

  function SelectedDevice(p: Profile, r: Registry, e: Event): Address {
    match Forwarded(p, r, e.category)
    case Some(x) => x
    case None => e.device
  }

  /** What the observer is told of an action, in order. */
  function Announce(p: Profile, r: Registry, e: Event): seq<Note> {
    var d := e.device;
    if e.action == CONNECT_ACTION then
      if d in r.connected then []
      else [DeviceStatus(p, d, ConnectCategory(e.category, e.wearDetection), LinkState(p), true)]
    else if e.action == USER_SELECTION_ACTION then
      [ForcedSelection(p, SelectedDevice(p, r, e))]
    else if e.action == VIRTUAL_DEVICE_ADD_ACTION then
      if d in r.connected then [] else [DeviceStatus(p, d, e.category, VirtualConnected, true)]
    else if e.action == VIRTUAL_DEVICE_REMOVE_ACTION then
      if d in r.connected then [] else [DeviceStatus(p, d, CategoryDefault, VirtualConnected, false)]
    else if d !in r.connected then []
    else if e.action == DISCONNECT_ACTION then [DeviceStatus(p, d, CategoryDefault, LinkState(p), false)]
    else if e.action == WEAR_ACTION then [CategoryUpdate(p, d, BtHeadphone)]
    else if e.action == UNWEAR_ACTION then [CategoryUpdate(p, d, BtUnwearHeadphone)]
    else if e.action == ENABLE_WEAR_DETECTION_ACTION then
      [CategoryUpdate(p, d, if MarkedWorn(r, d) then BtHeadphone else BtUnwearHeadphone)]
    else if e.action == DISABLE_WEAR_DETECTION_ACTION then [CategoryUpdate(p, d, BtHeadphone)]
    else if e.action == ENABLEFROMREMOTE_ACTION then [EnableUpdate(p, d, true)]
    else if e.action == DISABLEFROMREMOTE_ACTION then [EnableUpdate(p, d, false)]
    else []
  }

  /** What an observer hears of notes: nothing unless one is registered. */
  function Heard(registered: bool, notes: seq<Note>): seq<Note> {
    if registered then notes else []
  }

  /** The state after a run from the empty registry. */
  function Run(p: Profile, steps: seq<Step>): Registry {
    if steps == [] then EMPTY else Next(p, Run(p, steps[..|steps| - 1]), steps[|steps| - 1])
  }

  /** Everything announced over a run with an observer registered throughout. */
  function Log(p: Profile, steps: seq<Step>): seq<Note> {
    if steps == [] then []
    else
      var before := steps[..|steps| - 1];
      var last := steps[|steps| - 1];
      Log(p, before) + if last.Act? then Announce(p, Run(p, before), last.event) else []
  }
}
