/**
 AudioHfpManager and its listener, as the code runs them: static fields updated step by step around
 calls of a hands-free gateway that may refuse any of them. Each command and callback is proved
 against its outcome in ScoControl.
 */
module HfpManager {
  import opened BluetoothTypes
  import opened DeviceRegistry
  import opened RegistryInvariant
  import opened DeviceManager
  import opened DeviceLifecycle
  import opened StopVirtualCall
  import opened ScoControl
  import opened ScoProperties

  /** The gateway: its answers are whatever they are; every call is recorded. */
  class HandsFreeAudioGateway {
    var answers: Answers
    ghost var calls: seq<Call>

    constructor (answers: Answers)
      ensures this.answers == answers && calls == []
    {
      this.answers, calls := answers, [];
    }

    method DisconnectSco(category: ScoCategory) returns (ret: int)
      modifies this`calls
      ensures ret == answers.disconnectSco && calls == old(calls) + [DisconnectCall(category, ret == 0)]
    {
      ret := answers.disconnectSco;
      calls := calls + [DisconnectCall(category, ret == 0)];
    }

    method ConnectSco(category: ScoCategory) returns (ret: int)
      modifies this`calls
      ensures ret == answers.connectSco && calls == old(calls) + [ConnectCall(category, ret == 0)]
    {
      ret := answers.connectSco;
      calls := calls + [ConnectCall(category, ret == 0)];
    }

    method SetActiveDevice(d: Address) returns (ret: bool)
      modifies this`calls
      ensures ret == answers.setActive && calls == old(calls) + [SetActiveCall(d, ret)]
    {
      ret := answers.setActive;
      calls := calls + [SetActiveCall(d, ret)];
    }

    method OpenVoiceRecognition(d: Address) returns (ret: bool)
      modifies this`calls
      ensures ret == answers.openRecognition && calls == old(calls) + [OpenRecognitionCall(d, ret)]
    {
      ret := answers.openRecognition;
      calls := calls + [OpenRecognitionCall(d, ret)];
    }

    method CloseVoiceRecognition(d: Address) returns (ret: bool)
      modifies this`calls
      ensures ret == answers.closeRecognition && calls == old(calls) + [CloseRecognitionCall(d, ret)]
    {
      ret := answers.closeRecognition;
      calls := calls + [CloseRecognitionCall(d, ret)];
    }
  }

  class AudioHfpManager {
    const devices: BluetoothDeviceManager
    const gateway: HandsFreeAudioGateway
    var hfpInstance: HandsFreeAudioGateway?
    var scene: AudioScene
    var sceneFromPolicy: AudioScene
    var scoCategory: ScoCategory
    var activeHfpDevice: Address

    ghost predicate Valid()
      reads this, devices
    {
      devices.profile == Hfp && (hfpInstance == null || hfpInstance == gateway)
    }

    ghost function ScoView(): Sco
      reads this
    {
      Sco.Sco(hfpInstance != null, scene, sceneFromPolicy, scoCategory, activeHfpDevice)
    }

    ghost function View(): System
      reads this, devices
    {
      System(devices.View(), ScoView(), devices.stopVirtualCallHandle)
    }

    constructor (devices: BluetoothDeviceManager, gateway: HandsFreeAudioGateway)
      requires devices.profile == Hfp
      ensures this.devices == devices && this.gateway == gateway
      ensures Valid() && ScoView() == INITIAL.sco
    {
      this.devices, this.gateway := devices, gateway;
      hfpInstance := null;
      scene, sceneFromPolicy := SceneDefault, SceneDefault;
      scoCategory := ScoDefault;
      activeHfpDevice := DEFAULT_ADDRESS;
    }

    method RegisterBluetoothScoListener(available: bool)
      requires Valid()
      modifies this`hfpInstance
      ensures Valid() && View() == NextSystem(old(View()), RegisterCommand(available))
    {
      if available {
        hfpInstance := gateway;
      } else {
        hfpInstance := null;
      }
    }

    method UnregisterBluetoothScoListener()
      requires Valid()
      modifies this`hfpInstance
      ensures Valid() && View() == NextSystem(old(View()), UnregisterCommand)
    {
      if hfpInstance == null {
        return;
      }
      hfpInstance := null;
    }

    method SetAudioSceneFromPolicy(newScene: AudioScene)
      requires Valid()
      modifies this`sceneFromPolicy
      ensures Valid() && View() == NextSystem(old(View()), PolicySceneCommand(newScene))
    {
      sceneFromPolicy := newScene;
    }

    method HandleScoWithRecongnition(handleFlag: bool, d: Address) returns (success: bool)
      requires Valid()
      modifies this`scoCategory, gateway`calls
      ensures Valid()
      ensures var i := RecognitionCommand(handleFlag, d, gateway.answers);
              && View() == NextSystem(old(View()), i)
              && success == Handle(old(View()), i).success
              && gateway.calls == old(gateway.calls) + Handle(old(View()), i).calls
    {
      if hfpInstance == null {
        return false;
      }
      var ret := true;
      if handleFlag {
        var category := CategoryOf(scene);
        if category == ScoDefault && scoCategory != ScoRecognition {
          ret := hfpInstance.OpenVoiceRecognition(d);
          if ret {
            scoCategory := ScoRecognition;
          }
        }
      } else {
        if scoCategory == ScoRecognition {
          ret := hfpInstance.CloseVoiceRecognition(d);
          if ret {
            scoCategory := ScoDefault;
          }
        }
      }
      success := ret;
    }

    method DisconnectSco() returns (success: bool)
      requires Valid()
      modifies this`scene, gateway`calls
      ensures Valid()
      ensures var i := DisconnectScoCommand(gateway.answers);
              && View() == NextSystem(old(View()), i)
              && success == Handle(old(View()), i).success
              && gateway.calls == old(gateway.calls) + Handle(old(View()), i).calls
    {
      var current := CategoryOf(scene);
      if current == ScoDefault {
        return true;
      }
      if hfpInstance == null {
        return false;
      }
      var ret := hfpInstance.DisconnectSco(current);
      if ret != 0 {
        return false;
      }
      scene := SceneDefault;
      success := true;
    }

    method SetActiveHfpDevice(d: Address) returns (success: bool)
      requires Valid()
      modifies this`scene, this`activeHfpDevice, gateway`calls
      ensures Valid()
      ensures var i := SetActiveCommand(d, gateway.answers);
              && View() == NextSystem(old(View()), i)
              && success == Handle(old(View()), i).success
              && gateway.calls == old(gateway.calls) + Handle(old(View()), i).calls
    {
      var exist := devices.IsBluetoothDeviceExist(d);
      if !exist {
        return false;
      }
      if d != activeHfpDevice {
        var ret := DisconnectSco();
        if !ret {
          return false;
        }
      }
      if hfpInstance == null {
        return false;
      }
      var res := hfpInstance.SetActiveDevice(d);
      if !res {
        return false;
      }
      activeHfpDevice := d;
      success := true;
    }

    method ConnectScoWithAudioScene(newScene: AudioScene) returns (success: bool)
      requires Valid()
      modifies this`scene, gateway`calls
      ensures Valid()
      ensures var i := ConnectSceneCommand(newScene, gateway.answers);
              && View() == NextSystem(old(View()), i)
              && success == Handle(old(View()), i).success
              && gateway.calls == old(gateway.calls) + Handle(old(View()), i).calls
    {
      hide NextSystem, Handle, CategoryOf;
      SceneStep(View(), newScene, gateway.answers);
      if scoCategory == ScoRecognition {
        return true;
      }
      var lastCategory, newCategory := CategoryOf(scene), CategoryOf(newScene);
      if lastCategory == newCategory {
        return true;
      }
      if hfpInstance == null {
        return false;
      }
      if (newScene == SceneRinging || newScene == SceneVoiceRinging) && !hfpInstance.answers.inbandRinging {
        return true;
      }
      ghost var before := gateway.calls;
      ghost var closing: seq<Call> := [];
      if lastCategory != ScoDefault {
        var ret := hfpInstance.DisconnectSco(lastCategory);
        if ret != 0 {
          return false;
        }
        closing := [DisconnectCall(lastCategory, true)];
      }
      assert gateway.calls == before + closing;
      if newCategory != ScoDefault {
        var ret := hfpInstance.ConnectSco(newCategory);
        assert gateway.calls == before + (closing + [ConnectCall(newCategory, ret == 0)]);
        if ret != 0 {
          return false;
        }
      }
      scene := newScene;
      success := true;
    }

    /** AudioHfpListener::OnScoStateChanged. */
    method OnScoStateChanged(d: Address, state: int, reason: ScoReason)
      requires Valid()
      modifies this`scene, this`activeHfpDevice, devices`stopVirtualCallHandle, devices`announced
      ensures Valid() && View() == NextSystem(old(View()), ScoStateEvent(d, state, reason))
      ensures devices.Told(
                if state == SCO_CONNECTED || state == SCO_DISCONNECTED then
                  [ConnectStateUpdate(Hfp, d, AnnouncedState(old(View()).handle, d, state == SCO_CONNECTED, reason))]
                else [])
    {
      hide Next;
      if state == SCO_CONNECTED || state == SCO_DISCONNECTED {
        if d == activeHfpDevice && state == SCO_DISCONNECTED {
          activeHfpDevice := DEFAULT_ADDRESS;
          scene := SceneDefault;
        } else if state == SCO_CONNECTED {
          if sceneFromPolicy != scene {
            scene := sceneFromPolicy;
          }
          activeHfpDevice := d;
        }
        devices.OnScoStateChanged(d, state == SCO_CONNECTED, reason);
      }
    }

    /** AudioHfpListener::OnConnectionStateChanged. */
    method OnConnectionStateChanged(d: Address, state: BtState, category: DeviceCategory, wearDetection: bool)
      requires Valid()
      modifies this`scene, this`activeHfpDevice, devices
      ensures Valid() && View() == NextSystem(old(View()), ConnectionEvent(d, state, category, wearDetection))
      ensures ScoView() == if state == BtDisconnected then DropIfActive(old(ScoView()), d) else old(ScoView())
      ensures devices.KeepsRest()
      ensures match RegistryStep(ConnectionEvent(d, state, category, wearDetection))
              case Some(s) =>
                && devices.View() == Apply(Hfp, old(devices.View()), s.event)
                && devices.Told(Announce(Hfp, old(devices.View()), s.event))
              case None => devices.View() == old(devices.View()) && devices.Told([])
    {
      hide Apply, Announce;
      if state == BtConnected {
        devices.SetStack(Event(d, CONNECT_ACTION, category, wearDetection));
      }
      if state == BtDisconnected {
        if d == activeHfpDevice {
          activeHfpDevice := DEFAULT_ADDRESS;
          scene := SceneDefault;
        }
        devices.SetStack(Event(d, DISCONNECT_ACTION, category, wearDetection));
      }
    }

    /** AudioHfpListener::OnHfpStackChanged, and OnVirtualDeviceChanged with its two actions. */
    method OnHfpStackChanged(e: Event)
      requires Valid()
      modifies devices
      ensures Valid() && View() == NextSystem(old(View()), StackEvent(e))
      ensures devices.View() == Apply(Hfp, old(devices.View()), e) && ScoView() == old(ScoView())
      ensures devices.observerRegistered == old(devices.observerRegistered)
      ensures !IsStopRequest(e) ==> devices.KeepsRest()
      ensures devices.Told(Announce(Hfp, old(devices.View()), e))
    {
      devices.SetStack(e);
    }

    /**
     DisconnectBluetoothHfpSink: one disconnection for each device of a snapshot, while the handlers
     change the live map, and then the silent clearing.
     */
    method DisconnectBluetoothHfpSink() returns (ghost snapshot: seq<Address>)
      requires Valid() && Inv(devices.View())
      modifies this`scene, this`activeHfpDevice, devices
      ensures Valid() && ListsConnected(old(devices.View()), snapshot)
      ensures devices.View() == EMPTY
      ensures devices.Told(Removals(Hfp, snapshot))
      ensures devices.KeepsRest()
      ensures ScoView() == if old(activeHfpDevice) in snapshot
                           then old(ScoView()).(active := DEFAULT_ADDRESS, scene := SceneDefault)
                           else old(ScoView())
      ensures old(ActiveSafe(View())) ==> activeHfpDevice == DEFAULT_ADDRESS
    {
      snapshot := DisconnectSnapshot();
      TeardownDrains(Hfp, old(devices.View()), snapshot);
      devices.ClearAllBluetoothDevice();
    }

    /** The loop of the teardown. */
    method DisconnectSnapshot() returns (ghost snapshot: seq<Address>)
      requires Valid()
      modifies this`scene, this`activeHfpDevice, devices
      ensures Valid() && ListsConnected(old(devices.View()), snapshot)
      ensures devices.View() == ApplyAll(Hfp, old(devices.View()), Disconnections(snapshot))
      ensures devices.Told(AnnounceAll(Hfp, old(devices.View()), Disconnections(snapshot)))
      ensures devices.KeepsRest()
      ensures ScoView() == DropAll(old(ScoView()), snapshot)
    {
      hide Apply, Announce, ApplyAll, AnnounceAll, Disconnections, NextSystem, DropIfActive;
      ghost var r := devices.View();
      var hfpList := devices.GetAllBluetoothDevice();
      snapshot := hfpList;
      NoDisconnections(Hfp, r, hfpList);
      var k := 0;
      while k < |hfpList|
        invariant k <= |hfpList| && Valid()
        invariant devices.View() == ApplyAll(Hfp, r, Disconnections(hfpList[..k]))
        invariant devices.Told(AnnounceAll(Hfp, r, Disconnections(hfpList[..k])))
        invariant devices.KeepsRest()
        invariant ScoView() == DropAll(old(ScoView()), hfpList[..k])
      {
        OnConnectionStateChanged(hfpList[k], BtDisconnected, CategoryDefault, false);
        DisconnectionsSnoc(Hfp, r, hfpList, k, devices.observerRegistered, old(devices.announced));
        assert hfpList[..k + 1][..k] == hfpList[..k];
        k := k + 1;
      }
      assert hfpList[..k] == hfpList;
    }

    method ReconnectWorn(q: Survey, d: Address)
      requires Valid()
      modifies devices
      ensures devices.View() == ApplyAll(Hfp, old(devices.View()), WornEvents(q, d))
      ensures devices.Told(AnnounceAll(Hfp, old(devices.View()), WornEvents(q, d)))
      ensures devices.KeepsRest()
    {
      hide Apply, Announce;
      if q.wearDetection(d) {
        var wearState := q.wearing(d);
        if wearState == 1 {
          ApplyOne(Hfp, devices.View(), EventFor(q, d, WEAR_ACTION));
          devices.SetStack(EventFor(q, d, WEAR_ACTION));
        }
      }
    }

    /** One reported device: connected, and worn if it says so. */
    method ReconnectDevice(q: Survey, d: Address)
      requires Valid()
      modifies devices, this`scene, this`activeHfpDevice
      ensures unchanged(this)
      ensures devices.View() == ApplyAll(Hfp, old(devices.View()), ReconnectEvents(q, d))
      ensures devices.Told(AnnounceAll(Hfp, old(devices.View()), ReconnectEvents(q, d)))
      ensures devices.KeepsRest()
    {
      hide Apply, Announce, NextSystem;
      ghost var r := devices.View();
      ApplyOne(Hfp, r, EventFor(q, d, CONNECT_ACTION));
      ApplyAllConcat(Hfp, r, [EventFor(q, d, CONNECT_ACTION)], WornEvents(q, d));
      OnConnectionStateChanged(d, BtConnected, q.category(d), q.wearDetection(d));
      HeardJoins(devices.observerRegistered, old(devices.announced),
                 Announce(Hfp, r, EventFor(q, d, CONNECT_ACTION)), AnnounceAll(Hfp, devices.View(), WornEvents(q, d)));
      ReconnectWorn(q, d);
    }

    /** The first loop of the pass. */
    method ReconnectReported(q: Survey, reported: seq<Address>)
      requires Valid()
      modifies devices, this`scene, this`activeHfpDevice
      ensures unchanged(this)
      ensures devices.View() == ApplyAll(Hfp, old(devices.View()), ReportedEvents(q, reported))
      ensures devices.Told(AnnounceAll(Hfp, old(devices.View()), ReportedEvents(q, reported)))
      ensures devices.KeepsRest()
    {
      hide Apply, Announce, ReconnectEvents;
      ghost var r := devices.View();
      var k := 0;
      while k < |reported|
        invariant k <= |reported| && unchanged(this)
        invariant devices.View() == ApplyAll(Hfp, r, ReportedEvents(q, reported[..k]))
        invariant devices.Told(AnnounceAll(Hfp, r, ReportedEvents(q, reported[..k])))
        invariant devices.KeepsRest()
      {
        ReconnectDevice(q, reported[k]);
        ReportedSnoc(Hfp, r, q, reported, k, devices.observerRegistered, old(devices.announced));
        k := k + 1;
      }
      assert reported[..k] == reported;
    }

    /** The second loop of the pass: OnVirtualDeviceChanged with an addition. */
    method AddVirtuals(q: Survey, virtuals: seq<Address>)
      requires Valid()
      modifies devices
      ensures unchanged(this)
      ensures devices.View() == ApplyAll(Hfp, old(devices.View()), VirtualEvents(q, virtuals))
      ensures devices.Told(AnnounceAll(Hfp, old(devices.View()), VirtualEvents(q, virtuals)))
      ensures devices.KeepsRest()
    {
      hide Apply, Announce, NextSystem;
      ghost var r := devices.View();
      var k := 0;
      while k < |virtuals|
        invariant k <= |virtuals| && unchanged(this)
        invariant devices.View() == ApplyAll(Hfp, r, VirtualEvents(q, virtuals[..k]))
        invariant devices.Told(AnnounceAll(Hfp, r, VirtualEvents(q, virtuals[..k])))
        invariant devices.KeepsRest()
      {
        var e := EventFor(q, virtuals[k], VIRTUAL_DEVICE_ADD_ACTION);
        OnHfpStackChanged(e);
        VirtualsSnoc(Hfp, r, q, virtuals, k, devices.observerRegistered, old(devices.announced));
        k := k + 1;
      }
      assert virtuals[..k] == virtuals;
    }

    /** CheckHfpDeviceReconnect, with the answers that the gateway and the remote devices give. */
    method CheckHfpDeviceReconnect(available: bool, q: Survey, reported: seq<Address>, virtuals: seq<Address>)
      requires Valid()
      modifies this`hfpInstance, devices, this`scene, this`activeHfpDevice
      ensures Valid() && (hfpInstance != null <==> old(hfpInstance) != null || available)
      ensures ScoView() == old(ScoView()).(hasGateway := hfpInstance != null)
      ensures devices.KeepsRest()
      ensures var es := if hfpInstance == null then [] else PassEvents(q, reported, virtuals);
              && devices.View() == ApplyAll(Hfp, old(devices.View()), es)
              && devices.Told(AnnounceAll(Hfp, old(devices.View()), es))
    {
      if hfpInstance == null && available {
        hfpInstance := gateway;
      }
      if hfpInstance == null {
        return;
      }
      hide Apply, Announce;
      ghost var r := devices.View();
      ReconnectReported(q, reported);
      AddVirtuals(q, virtuals);
      ApplyAllConcat(Hfp, r, ReportedEvents(q, reported), VirtualEvents(q, virtuals));
      HeardJoins(devices.observerRegistered, old(devices.announced), AnnounceAll(Hfp, r, ReportedEvents(q, reported)),
                 AnnounceAll(Hfp, ApplyAll(Hfp, r, ReportedEvents(q, reported)), VirtualEvents(q, virtuals)));
    }
  }

  /** A scene command moves the link controller alone. */
  lemma SceneStep(y: System, scene: AudioScene, a: Answers)
    ensures NextSystem(y, ConnectSceneCommand(scene, a)) == y.(sco := ConnectScene(y.sco, scene, a).sco)
    ensures Handle(y, ConnectSceneCommand(scene, a)) == ConnectScene(y.sco, scene, a)
  {
    hide ConnectScene;
  }

  /** The controller after disconnections of the listed devices. */
  ghost function DropAll(s: Sco, list: seq<Address>): (s': Sco)
    ensures s.active in list ==> s' == s.(active := DEFAULT_ADDRESS, scene := SceneDefault)
    ensures s.active !in list ==> s' == s
  {
    if list == [] then s
    else
      assert list == list[..|list| - 1] + [list[|list| - 1]];
      DropIfActive(DropAll(s, list[..|list| - 1]), list[|list| - 1])
  }
}
