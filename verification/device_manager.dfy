/**
 The device manager as the code runs it: fields changed step by step by one handler for each action.
 The media and the hands-free manager are two instances, and a handler asks for the profile where
 their code differs. Each handler is proved against its function in DeviceRegistry.
 */
module DeviceManager {
  import opened Wrappers
  import opened BluetoothTypes
  import opened ConfigVector
  import opened DeviceRegistry
  import opened StopVirtualCall

  class BluetoothDeviceManager {
    const profile: Profile
    var observerRegistered: bool
    var deviceMap: set<Address>
    var wearDetectionStateMap: map<Address, WearState>
    var privacyDevices: seq<Address>
    var commonDevices: seq<Address>
    var negativeDevices: seq<Address>
    var stopVirtualCallHandle: StopHandle
    /** Detached threads started to run DisconnectSco. */
    var disconnectScoThreads: nat
    ghost var announced: seq<Note>

    ghost function View(): Registry
      reads this
    {
      Registry(deviceMap, wearDetectionStateMap, privacyDevices, commonDevices, negativeDevices)
    }

    /** The observer stayed registered or not, and no stop request was taken up or answered. */
    twostate predicate KeepsRest()
      reads this
    {
      && observerRegistered == old(observerRegistered)
      && stopVirtualCallHandle == old(stopVirtualCallHandle)
      && disconnectScoThreads == old(disconnectScoThreads)
    }

    /** These notes were sent, and reached the observer if one is registered. */
    twostate predicate Told(notes: seq<Note>)
      reads this
    {
      announced == old(announced) + Heard(observerRegistered, notes)
    }

    constructor (profile: Profile)
      ensures this.profile == profile && View() == EMPTY && announced == []
      ensures !observerRegistered && stopVirtualCallHandle == IDLE && disconnectScoThreads == 0
    {
      this.profile := profile;
      observerRegistered := false;
      deviceMap := {};
      wearDetectionStateMap := map[];
      privacyDevices, commonDevices, negativeDevices := [], [], [];
      stopVirtualCallHandle := IDLE;
      disconnectScoThreads := 0;
      announced := [];
    }

    method RegisterDeviceObserver()
      modifies this`observerRegistered
      ensures observerRegistered
    {
      observerRegistered := true;
    }

    method UnregisterDeviceObserver()
      modifies this`observerRegistered
      ensures !observerRegistered
    {
      observerRegistered := false;
    }

    method Notify(n: Note)
      modifies this`announced
      ensures Told([n])
      ensures announced == if observerRegistered then old(announced) + [n] else old(announced)
    {
      if observerRegistered {
        announced := announced + [n];
      }
    }

    method IsBluetoothDeviceExist(d: Address) returns (exist: bool)
      ensures exist <==> d in deviceMap
    {
      exist := d in deviceMap;
    }

    method NotifyToUpdateAudioDevice(d: Address, category: DeviceCategory, isAdd: bool)
      modifies this`deviceMap, this`announced
      ensures deviceMap == if isAdd then old(deviceMap) + {d} else old(deviceMap) - {d}
      ensures Told([DeviceStatus(profile, d, category, LinkState(profile), isAdd)])
    {
      var state := DeactiveConnected;
      if profile == A2dp {
        state := Connected;
      }
      if isAdd {
        deviceMap := deviceMap + {d};
      } else if d in deviceMap {
        deviceMap := deviceMap - {d};
      }
      Notify(DeviceStatus(profile, d, category, state, isAdd));
    }

    method HandleConnectDevice(d: Address, category: DeviceCategory, wearDetection: bool)
      modifies this`deviceMap, this`privacyDevices, this`commonDevices, this`negativeDevices, this`announced
      ensures View() == OnConnect(old(View()), d, category, wearDetection)
      ensures Told(Announce(profile, old(View()), Event(d, CONNECT_ACTION, category, wearDetection)))
    {
      hide Insert, EraseFirst;
      var exist := IsBluetoothDeviceExist(d);
      if exist {
        return;
      }
      negativeDevices := RemoveDeviceInConfigVector(d, negativeDevices);
      var announcedCategory := category;
      match category {
        case BtHeadphone =>
          if wearDetection {
            negativeDevices := AddDeviceInConfigVector(d, negativeDevices);
            announcedCategory := BtUnwearHeadphone;
          } else {
            privacyDevices := AddDeviceInConfigVector(d, privacyDevices);
          }
        case BtGlasses =>
          privacyDevices := AddDeviceInConfigVector(d, privacyDevices);
        case BtSoundbox =>
          commonDevices := AddDeviceInConfigVector(d, commonDevices);
        case BtCar =>
          commonDevices := AddDeviceInConfigVector(d, commonDevices);
        case BtWatch =>
          negativeDevices := AddDeviceInConfigVector(d, negativeDevices);
        case _ =>
          privacyDevices := AddDeviceInConfigVector(d, privacyDevices);
          announcedCategory := BtHeadphone;
      }
      NotifyToUpdateAudioDevice(d, announcedCategory, true);
    }

    method HandleDisconnectDevice(d: Address)
      modifies this`deviceMap, this`wearDetectionStateMap, this`privacyDevices, this`commonDevices,
               this`negativeDevices, this`announced
      ensures View() == OnDisconnect(old(View()), d)
      ensures Told(Announce(profile, old(View()), Event(d, DISCONNECT_ACTION, CategoryDefault, false)))
    {
      var exist := IsBluetoothDeviceExist(d);
      if !exist {
        return;
      }
      privacyDevices := RemoveDeviceInConfigVector(d, privacyDevices);
      commonDevices := RemoveDeviceInConfigVector(d, commonDevices);
      negativeDevices := RemoveDeviceInConfigVector(d, negativeDevices);
      wearDetectionStateMap := wearDetectionStateMap - {d};
      NotifyToUpdateAudioDevice(d, CategoryDefault, false);
    }

    method HandleWearDevice(d: Address)
      modifies this`wearDetectionStateMap, this`privacyDevices, this`negativeDevices, this`announced
      ensures View() == OnWear(old(View()), d)
      ensures Told(if d in deviceMap then [CategoryUpdate(profile, d, BtHeadphone)] else [])
    {
      var exist := IsBluetoothDeviceExist(d);
      if !exist {
        return;
      }
      negativeDevices := RemoveDeviceInConfigVector(d, negativeDevices);
      privacyDevices := RemoveDeviceInConfigVector(d, privacyDevices);
      privacyDevices := AddDeviceInConfigVector(d, privacyDevices);
      wearDetectionStateMap := wearDetectionStateMap[d := Wear];
      Notify(CategoryUpdate(profile, d, BtHeadphone));
    }

    method HandleUnwearDevice(d: Address)
      modifies this`wearDetectionStateMap, this`privacyDevices, this`negativeDevices, this`announced
      ensures View() == OnUnwear(old(View()), d)
      ensures Told(if d in deviceMap then [CategoryUpdate(profile, d, BtUnwearHeadphone)] else [])
    {
      var exist := IsBluetoothDeviceExist(d);
      if !exist {
        return;
      }
      privacyDevices := RemoveDeviceInConfigVector(d, privacyDevices);
      negativeDevices := RemoveDeviceInConfigVector(d, negativeDevices);
      negativeDevices := AddDeviceInConfigVector(d, negativeDevices);
      wearDetectionStateMap := wearDetectionStateMap[d := Unwear];
      Notify(CategoryUpdate(profile, d, BtUnwearHeadphone));
    }

    /** HandleEnableDevice and HandleDisableDevice. */
    method HandleEnableUpdate(d: Address, isEnable: bool)
      modifies this`announced
      ensures Told(if d in deviceMap then [EnableUpdate(profile, d, isEnable)] else [])
    {
      var exist := IsBluetoothDeviceExist(d);
      if !exist {
        return;
      }
      Notify(EnableUpdate(profile, d, isEnable));
    }

    method HandleWearEnable(d: Address)
      modifies this`privacyDevices, this`negativeDevices, this`announced
      ensures View() == OnWearEnable(old(View()), d)
      ensures Told(
                if d !in deviceMap then []
                else
                  var worn := MarkedWorn(old(View()), d);
                  [CategoryUpdate(profile, d, if worn then BtHeadphone else BtUnwearHeadphone)])
    {
      var exist := IsBluetoothDeviceExist(d);
      if !exist {
        return;
      }
      negativeDevices := RemoveDeviceInConfigVector(d, negativeDevices);
      privacyDevices := RemoveDeviceInConfigVector(d, privacyDevices);
      if d in wearDetectionStateMap && wearDetectionStateMap[d] == Wear {
        privacyDevices := AddDeviceInConfigVector(d, privacyDevices);
        Notify(CategoryUpdate(profile, d, BtHeadphone));
      } else {
        negativeDevices := AddDeviceInConfigVector(d, negativeDevices);
        Notify(CategoryUpdate(profile, d, BtUnwearHeadphone));
      }
    }

    method HandleWearDisable(d: Address)
      modifies this`privacyDevices, this`negativeDevices, this`announced
      ensures View() == OnWearDisable(old(View()), d)
      ensures Told(if d in deviceMap then [CategoryUpdate(profile, d, BtHeadphone)] else [])
    {
      var exist := IsBluetoothDeviceExist(d);
      if !exist {
        return;
      }
      privacyDevices := RemoveDeviceInConfigVector(d, privacyDevices);
      negativeDevices := RemoveDeviceInConfigVector(d, negativeDevices);
      privacyDevices := AddDeviceInConfigVector(d, privacyDevices);
      Notify(CategoryUpdate(profile, d, BtHeadphone));
    }

    /** Searches the privacy list from its end, creating each missing wear record it looks at. */
    method FindWornFromEnd() returns (found: Option<Address>)
      modifies this`wearDetectionStateMap
      ensures found == LastWorn(privacyDevices, old(wearDetectionStateMap))
      ensures wearDetectionStateMap ==
                if found.Some? && found.value !in old(wearDetectionStateMap)
                then old(wearDetectionStateMap)[found.value := Wear] else old(wearDetectionStateMap)
    {
      var i := |privacyDevices|;
      assert privacyDevices[..i] == privacyDevices;
      while i > 0
        invariant 0 <= i <= |privacyDevices|
        invariant wearDetectionStateMap == old(wearDetectionStateMap)
        invariant LastWorn(privacyDevices, wearDetectionStateMap) == LastWorn(privacyDevices[..i], wearDetectionStateMap)
      {
        var d := privacyDevices[i - 1];
        assert privacyDevices[..i][..i - 1] == privacyDevices[..i - 1];
        if d !in wearDetectionStateMap {
          wearDetectionStateMap := wearDetectionStateMap[d := Wear];
        }
        if wearDetectionStateMap[d] == Wear {
          return Some(d);
        }
        i := i - 1;
      }
      return None;
    }

    method HandleUserSelection(d: Address, category: DeviceCategory)
      modifies this`wearDetectionStateMap, this`announced
      ensures View() == OnUserSelection(profile, old(View()), category)
      ensures Told(Announce(profile, old(View()), Event(d, USER_SELECTION_ACTION, category, false)))
    {
      var deviceAddr := d;
      if profile == Hfp && category == BtWatch {
        var found := FindWornFromEnd();
        if found.Some? {
          deviceAddr := found.value;
        }
      }
      Notify(ForcedSelection(profile, deviceAddr));
    }

    method HandleStopVirtualCall(d: Address)
      modifies this`stopVirtualCallHandle, this`disconnectScoThreads
      ensures stopVirtualCallHandle == StopHandle(d, true)
      ensures disconnectScoThreads == old(disconnectScoThreads) + 1
    {
      stopVirtualCallHandle := StopHandle(d, true);
      disconnectScoThreads := disconnectScoThreads + 1;
    }

    method HandleVirtualConnectDevice(d: Address, category: DeviceCategory)
      modifies this`negativeDevices, this`announced
      ensures View() == OnVirtualAdd(old(View()), d)
      ensures Told(Announce(profile, old(View()), Event(d, VIRTUAL_DEVICE_ADD_ACTION, category, false)))
    {
      var exist := IsBluetoothDeviceExist(d);
      if exist {
        return;
      }
      negativeDevices := AddDeviceInConfigVector(d, negativeDevices);
      Notify(DeviceStatus(profile, d, category, VirtualConnected, true));
    }

    method HandleRemoveVirtualConnectDevice(d: Address)
      modifies this`negativeDevices, this`announced
      ensures View() == OnVirtualRemove(old(View()), d)
      ensures Told(Announce(profile, old(View()), Event(d, VIRTUAL_DEVICE_REMOVE_ACTION, CategoryDefault, false)))
    {
      var exist := IsBluetoothDeviceExist(d);
      if exist {
        return;
      }
      negativeDevices := RemoveDeviceInConfigVector(d, negativeDevices);
      Notify(DeviceStatus(profile, d, CategoryDefault, VirtualConnected, false));
    }

    /** SetMediaStack and SetHfpStack: the event carries what the handlers would ask about the device. */
    method SetStack(e: Event)
      modifies this`deviceMap, this`wearDetectionStateMap, this`privacyDevices, this`commonDevices,
               this`negativeDevices, this`stopVirtualCallHandle, this`disconnectScoThreads, this`announced
      ensures View() == Apply(profile, old(View()), e)
      ensures Told(Announce(profile, old(View()), e))
      ensures stopVirtualCallHandle ==
                if profile == Hfp && e.action == STOP_VIRTUAL_CALL then StopHandle(e.device, true)
                else old(stopVirtualCallHandle)
      ensures disconnectScoThreads ==
                old(disconnectScoThreads) + if profile == Hfp && e.action == STOP_VIRTUAL_CALL then 1 else 0
    {
      assert Told([]);
      hide OnConnect, OnDisconnect, OnWear, OnUnwear, OnWearEnable, OnWearDisable, OnUserSelection,
           OnVirtualAdd, OnVirtualRemove, Forwarded, ConnectCategory, MarkedWorn, LinkState, Heard, Told;
      var d := e.device;
      if e.action == CONNECT_ACTION {
        HandleConnectDevice(d, e.category, e.wearDetection);
      } else if e.action == DISCONNECT_ACTION {
        HandleDisconnectDevice(d);
      } else if e.action == WEAR_ACTION {
        HandleWearDevice(d);
      } else if e.action == UNWEAR_ACTION {
        HandleUnwearDevice(d);
      } else if e.action == ENABLEFROMREMOTE_ACTION {
        HandleEnableUpdate(d, true);
      } else if e.action == DISABLEFROMREMOTE_ACTION {
        HandleEnableUpdate(d, false);
      } else if e.action == ENABLE_WEAR_DETECTION_ACTION {
        HandleWearEnable(d);
      } else if e.action == DISABLE_WEAR_DETECTION_ACTION {
        HandleWearDisable(d);
      } else if e.action == USER_SELECTION_ACTION {
        HandleUserSelection(d, e.category);
      } else if profile == Hfp && e.action == STOP_VIRTUAL_CALL {
        HandleStopVirtualCall(d);
      } else if e.action == VIRTUAL_DEVICE_ADD_ACTION {
        HandleVirtualConnectDevice(d, e.category);
      } else if e.action == VIRTUAL_DEVICE_REMOVE_ACTION {
        HandleRemoveVirtualConnectDevice(d);
      }
    }

    /** A copy of the connected devices, in any order. */
    method GetAllBluetoothDevice() returns (list: seq<Address>)
      ensures NoDuplicates(list)
      ensures forall d :: d in list <==> d in deviceMap
    {
      list := [];
      var rest := deviceMap;
      while rest != {}
        invariant NoDuplicates(list)
        invariant rest <= deviceMap
        invariant forall d :: d in list <==> d in deviceMap - rest
        decreases rest
      {
        var d :| d in rest;
        assert d !in list;
        list := list + [d];
        rest := rest - {d};
      }
    }

    method ClearAllBluetoothDevice()
      modifies this`deviceMap, this`wearDetectionStateMap, this`privacyDevices, this`commonDevices,
               this`negativeDevices
      ensures View() == EMPTY
    {
      privacyDevices, commonDevices, negativeDevices := [], [], [];
      deviceMap := {};
      wearDetectionStateMap := map[];
    }

    /** HfpBluetoothDeviceManager::OnScoStateChanged. */
    method OnScoStateChanged(d: Address, isConnected: bool, reason: ScoReason)
      modifies this`stopVirtualCallHandle, this`announced
      ensures stopVirtualCallHandle == AfterSco(old(stopVirtualCallHandle), d, isConnected)
      ensures Told([ConnectStateUpdate(Hfp, d, AnnouncedState(old(stopVirtualCallHandle), d, isConnected, reason))])
    {
      var effective := reason;
      var state := Connected;
      if !isConnected {
        if d == stopVirtualCallHandle.device && stopVirtualCallHandle.isWaiting {
          effective := RemoteUserTerminated;
          stopVirtualCallHandle := IDLE;
        }
        state := if effective == RemoteUserTerminated then SuspendConnected else DeactiveConnected;
      }
      Notify(ConnectStateUpdate(Hfp, d, state));
    }
  }
}
