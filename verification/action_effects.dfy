/**
 What each action of a device manager comes to, said of the containers and the notes themselves: the
 list a device is put on, its wear record, and what the observer is told of it.
 */
module ActionEffects {
  import opened Wrappers
  import opened BluetoothTypes
  import opened ConfigVector
  import opened DeviceRegistry
  import opened DeviceAutomaton
  import opened RegistryInvariant

  /** The action changes nothing and tells nothing. */
  predicate Ignored(p: Profile, r: Registry, e: Event) {
    Apply(p, r, e) == r && Announce(p, r, e) == []
  }

  /** Nothing is different for any device but d. */
  ghost predicate OthersKept(r: Registry, r': Registry, d: Address) {
    forall a | a != d :: Project(r', a) == Project(r, a)
  }

  /** d is on the list, behind all its other devices. */
  predicate IsNewest(v: seq<Address>, d: Address) {
    v != [] && v[|v| - 1] == d
  }

  lemma OneDeviceOnly(p: Profile, r: Registry, e: Event)
    requires Inv(r) && e.action != USER_SELECTION_ACTION
    ensures OthersKept(r, Apply(p, r, e), e.device)
    ensures Project(Apply(p, r, e), e.device) == DeviceStep(Project(r, e.device), e)
  {
    hide Apply, DeviceStep;
    StepProjects(p, r, Act(e), e.device);
    forall a | a != e.device ensures Project(Apply(p, r, e), a) == Project(r, a) {
      StepProjects(p, r, Act(e), a);
    }
  }

  /**
   A device that connects goes to the negative list if it is a watch, or a headphone that detects
   wearing; to the common list if it is a soundbox or a car; and else to the privacy list. It is told
   under its own category, but a headphone that detects wearing as not worn, and anything else that is
   not a glasses, soundbox, car or watch device as a headphone.
   */
  lemma ConnectEffect(p: Profile, r: Registry, e: Event)
    requires Inv(r) && e.action == CONNECT_ACTION
    ensures e.device in r.connected ==> Ignored(p, r, e)
    ensures e.device !in r.connected ==>
              var d, r' := e.device, Apply(p, r, e);
              var unworn := e.category == BtHeadphone && e.wearDetection;
              && d in r'.connected && d !in r'.wear && OthersKept(r, r', d)
              && (d in r'.negative <==> unworn || e.category == BtWatch)
              && (d in r'.common <==> e.category == BtSoundbox || e.category == BtCar)
              && (d in r'.privacy <==> d !in r'.negative && d !in r'.common)
              && var told := if unworn then BtUnwearHeadphone
                             else if e.category in {BtGlasses, BtSoundbox, BtCar, BtWatch} then e.category
                             else BtHeadphone;
                 Announce(p, r, e) ==
                 [DeviceStatus(p, d, told, if p == A2dp then Connected else DeactiveConnected, true)]
  {
    OneDeviceOnly(p, r, e);
    assert Sound(Project(r, e.device));
    assert Project(Apply(p, r, e), e.device).inNegative == (e.device in Apply(p, r, e).negative);
  }

  /** A device that disconnects is nowhere afterwards, and one removal is told. */
  lemma DisconnectEffect(p: Profile, r: Registry, e: Event)
    requires Inv(r) && e.action == DISCONNECT_ACTION
    ensures e.device !in r.connected ==> Ignored(p, r, e)
    ensures e.device in r.connected ==>
              var d, r' := e.device, Apply(p, r, e);
              && d !in r'.connected && d !in r'.wear && d !in r'.privacy && d !in r'.common && d !in r'.negative
              && OthersKept(r, r', d)
              && Announce(p, r, e) ==
                 [DeviceStatus(p, d, CategoryDefault, if p == A2dp then Connected else DeactiveConnected, false)]
  {
    OneDeviceOnly(p, r, e);
  }

  /**
   The wear actions on a connected device: which of them record what, after which of them it is the
   newest privacy device and after which a negative one, and under which category that is told.
   */
  lemma WearEffect(p: Profile, r: Registry, e: Event)
    requires Inv(r) && IsWearAction(e.action)
    ensures e.device !in r.connected ==> Ignored(p, r, e)
    ensures e.device in r.connected ==>
              var d, r' := e.device, Apply(p, r, e);
              var wanted := || e.action == WEAR_ACTION || e.action == DISABLE_WEAR_DETECTION_ACTION
                            || (e.action == ENABLE_WEAR_DETECTION_ACTION && d in r.wear && r.wear[d] == Wear);
              && r'.connected == r.connected && r'.common == r.common && OthersKept(r, r', d)
              && r'.wear == (if e.action == WEAR_ACTION then r.wear[d := Wear]
                             else if e.action == UNWEAR_ACTION then r.wear[d := Unwear]
                             else r.wear)
              && (if wanted then IsNewest(r'.privacy, d) && d !in r'.negative
                  else IsNewest(r'.negative, d) && d !in r'.privacy)
              && Announce(p, r, e) == [CategoryUpdate(p, d, if wanted then BtHeadphone else BtUnwearHeadphone)]
  {
    OneDeviceOnly(p, r, e);
  }

  /** Enabling and disabling from remote only tell their flag, and only of a connected device. */
  lemma RemoteEnableEffect(p: Profile, r: Registry, e: Event)
    requires e.action == ENABLEFROMREMOTE_ACTION || e.action == DISABLEFROMREMOTE_ACTION
    ensures Apply(p, r, e) == r
    ensures Announce(p, r, e) ==
            if e.device in r.connected then [EnableUpdate(p, e.device, e.action == ENABLEFROMREMOTE_ACTION)] else []
  {
  }

  /**
   Virtual devices: an addition or removal is ignored for a connected device. Any other is then on the
   negative list or off it, without a record and without being connected, and that is told.
   */
  lemma VirtualEffect(p: Profile, r: Registry, e: Event)
    requires Inv(r) && (e.action == VIRTUAL_DEVICE_ADD_ACTION || e.action == VIRTUAL_DEVICE_REMOVE_ACTION)
    ensures e.device in r.connected ==> Ignored(p, r, e)
    ensures e.device !in r.connected ==>
              var d, r', adds := e.device, Apply(p, r, e), e.action == VIRTUAL_DEVICE_ADD_ACTION;
              && r' == r.(negative := r'.negative) && OthersKept(r, r', d)
              && (d in r'.negative <==> adds)
              && Announce(p, r, e) ==
                 [DeviceStatus(p, d, if adds then e.category else CategoryDefault, VirtualConnected, adds)]
  {
    OneDeviceOnly(p, r, e);
  }

  /** In the media manager, and for everything but a watch, the selected device itself is announced. */
  lemma OwnSelectionEffect(p: Profile, r: Registry, e: Event)
    requires e.action == USER_SELECTION_ACTION && (p == A2dp || e.category != BtWatch)
    ensures Announce(p, r, e) == [ForcedSelection(p, e.device)]
    ensures Apply(p, r, e) == r
  {
  }

  /** No other action code reaches the registry or the observer, the stop request included. */
  lemma OtherActionsEffect(p: Profile, r: Registry, e: Event)
    requires !IsWearAction(e.action)
    requires e.action !in {ENABLEFROMREMOTE_ACTION, DISABLEFROMREMOTE_ACTION, USER_SELECTION_ACTION, CONNECT_ACTION,
                           DISCONNECT_ACTION, VIRTUAL_DEVICE_ADD_ACTION, VIRTUAL_DEVICE_REMOVE_ACTION}
    ensures Ignored(p, r, e)
  {
  }

  /** Every note names the manager that sends it. */
  lemma NotesAreOwn(p: Profile, r: Registry, e: Event)
    ensures forall n | n in Announce(p, r, e) :: n.profile == p
  {
  }
}
