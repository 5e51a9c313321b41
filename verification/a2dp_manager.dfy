/** AudioA2dpManager and its listener: the media side of connecting, tearing down and reconnecting. */
module A2dpManager {
  import opened BluetoothTypes
  import opened DeviceRegistry
  import opened RegistryInvariant
  import opened DeviceManager
  import opened DeviceLifecycle
  import opened ScoControl

  class AudioA2dpManager {
    const devices: BluetoothDeviceManager
    var a2dpInstance: bool
    var connectionState: BtState

    ghost predicate Valid() {
      devices.profile == A2dp
    }

    constructor (devices: BluetoothDeviceManager)
      requires devices.profile == A2dp
      ensures this.devices == devices && Valid() && !a2dpInstance && connectionState == BtDisconnected
    {
      this.devices, a2dpInstance, connectionState := devices, false, BtDisconnected;
    }

    /** AudioA2dpListener::OnConnectionStateChanged. */
    method OnConnectionStateChanged(d: Address, state: BtState, category: DeviceCategory, wearDetection: bool)
      requires Valid()
      modifies this`connectionState, devices
      ensures connectionState == state
      ensures devices.KeepsRest()
      ensures match RegistryStep(ConnectionEvent(d, state, category, wearDetection))
              case Some(s) =>
                && devices.View() == Apply(A2dp, old(devices.View()), s.event)
                && devices.Told(Announce(A2dp, old(devices.View()), s.event))
              case None => devices.View() == old(devices.View()) && devices.Told([])
    {
      connectionState := state;
      if state == BtConnected {
        devices.SetStack(Event(d, CONNECT_ACTION, category, wearDetection));
      }
      if state == BtDisconnected {
        devices.SetStack(Event(d, DISCONNECT_ACTION, category, wearDetection));
      }
    }

    method DisconnectBluetoothA2dpSink() returns (ghost snapshot: seq<Address>)
      requires Valid() && Inv(devices.View())
      modifies this`connectionState, devices
      ensures ListsConnected(old(devices.View()), snapshot)
      ensures devices.View() == EMPTY
      ensures devices.Told(Removals(A2dp, snapshot))
      ensures devices.KeepsRest()
      ensures connectionState == if snapshot == [] then old(connectionState) else BtDisconnected
    {
      snapshot := DisconnectSnapshot();
      TeardownDrains(A2dp, old(devices.View()), snapshot);
      devices.ClearAllBluetoothDevice();
    }

    /** The loop of the teardown. */
    method DisconnectSnapshot() returns (ghost snapshot: seq<Address>)
      requires Valid()
      modifies this`connectionState, devices
      ensures ListsConnected(old(devices.View()), snapshot)
      ensures devices.View() == ApplyAll(A2dp, old(devices.View()), Disconnections(snapshot))
      ensures devices.Told(AnnounceAll(A2dp, old(devices.View()), Disconnections(snapshot)))
      ensures devices.KeepsRest()
      ensures connectionState == if snapshot == [] then old(connectionState) else BtDisconnected
    {
      hide Apply, Announce, ApplyAll, AnnounceAll, Disconnections;
      ghost var r := devices.View();
      var a2dpList := devices.GetAllBluetoothDevice();
      snapshot := a2dpList;
      NoDisconnections(A2dp, r, a2dpList);
      var k := 0;
      while k < |a2dpList|
        invariant k <= |a2dpList|
        invariant devices.View() == ApplyAll(A2dp, r, Disconnections(a2dpList[..k]))
        invariant devices.Told(AnnounceAll(A2dp, r, Disconnections(a2dpList[..k])))
        invariant devices.KeepsRest()
        invariant connectionState == if k == 0 then old(connectionState) else BtDisconnected
      {
        OnConnectionStateChanged(a2dpList[k], BtDisconnected, CategoryDefault, false);
        DisconnectionsSnoc(A2dp, r, a2dpList, k, devices.observerRegistered, old(devices.announced));
        k := k + 1;
      }
      assert a2dpList[..k] == a2dpList;
    }

    method ReconnectWorn(q: Survey, d: Address)
      requires Valid()
      modifies devices
      ensures devices.View() == ApplyAll(A2dp, old(devices.View()), WornEvents(q, d))
      ensures devices.Told(AnnounceAll(A2dp, old(devices.View()), WornEvents(q, d)))
      ensures devices.KeepsRest()
    {
      hide Apply, Announce;
      if q.wearDetection(d) {
        var wearState := q.wearing(d);
        if wearState == 1 {
          ApplyOne(A2dp, devices.View(), EventFor(q, d, WEAR_ACTION));
          devices.SetStack(EventFor(q, d, WEAR_ACTION));
        }
      }
    }

    /** One reported device: connected, and worn if it says so. */
    method ReconnectDevice(q: Survey, d: Address)
      requires Valid()
      modifies this`connectionState, devices
      ensures devices.View() == ApplyAll(A2dp, old(devices.View()), ReconnectEvents(q, d))
      ensures devices.Told(AnnounceAll(A2dp, old(devices.View()), ReconnectEvents(q, d)))
      ensures devices.KeepsRest()
    {
      hide Apply, Announce;
      ghost var r := devices.View();
      ApplyOne(A2dp, r, EventFor(q, d, CONNECT_ACTION));
      ApplyAllConcat(A2dp, r, [EventFor(q, d, CONNECT_ACTION)], WornEvents(q, d));
      OnConnectionStateChanged(d, BtConnected, q.category(d), q.wearDetection(d));
      HeardJoins(devices.observerRegistered, old(devices.announced),
                 Announce(A2dp, r, EventFor(q, d, CONNECT_ACTION)),
                 AnnounceAll(A2dp, devices.View(), WornEvents(q, d)));
      ReconnectWorn(q, d);
    }

    /** The first loop of the pass. */
    method ReconnectReported(q: Survey, reported: seq<Address>)
      requires Valid()
      modifies this`connectionState, devices
      ensures devices.View() == ApplyAll(A2dp, old(devices.View()), ReportedEvents(q, reported))
      ensures devices.Told(AnnounceAll(A2dp, old(devices.View()), ReportedEvents(q, reported)))
      ensures devices.KeepsRest()
    {
      hide Apply, Announce, ReconnectEvents;
      ghost var r := devices.View();
      var k := 0;
      while k < |reported|
        invariant k <= |reported|
        invariant devices.View() == ApplyAll(A2dp, r, ReportedEvents(q, reported[..k]))
        invariant devices.Told(AnnounceAll(A2dp, r, ReportedEvents(q, reported[..k])))
        invariant devices.KeepsRest()
      {
        ReconnectDevice(q, reported[k]);
        ReportedSnoc(A2dp, r, q, reported, k, devices.observerRegistered, old(devices.announced));
        k := k + 1;
      }
      assert reported[..k] == reported;
    }

    /** The second loop of the pass: OnVirtualDeviceChanged with an addition. */
    method AddVirtuals(q: Survey, virtuals: seq<Address>)
      requires Valid()
      modifies devices
      ensures devices.View() == ApplyAll(A2dp, old(devices.View()), VirtualEvents(q, virtuals))
      ensures devices.Told(AnnounceAll(A2dp, old(devices.View()), VirtualEvents(q, virtuals)))
      ensures devices.KeepsRest()
    {
      hide Apply, Announce;
      ghost var r := devices.View();
      var k := 0;
      while k < |virtuals|
        invariant k <= |virtuals|
        invariant devices.View() == ApplyAll(A2dp, r, VirtualEvents(q, virtuals[..k]))
        invariant devices.Told(AnnounceAll(A2dp, r, VirtualEvents(q, virtuals[..k])))
        invariant devices.KeepsRest()
      {
        var e := EventFor(q, virtuals[k], VIRTUAL_DEVICE_ADD_ACTION);
        devices.SetStack(e);
        VirtualsSnoc(A2dp, r, q, virtuals, k, devices.observerRegistered, old(devices.announced));
        k := k + 1;
      }
      assert virtuals[..k] == virtuals;
    }

    /** CheckA2dpDeviceReconnect, with the answers that the media source and the remote devices give. */
    method CheckA2dpDeviceReconnect(available: bool, q: Survey, reported: seq<Address>, virtuals: seq<Address>)
      requires Valid()
      modifies this`a2dpInstance, this`connectionState, devices
      ensures a2dpInstance <==> old(a2dpInstance) || available
      ensures devices.KeepsRest()
      ensures var es := if a2dpInstance then PassEvents(q, reported, virtuals) else [];
              && devices.View() == ApplyAll(A2dp, old(devices.View()), es)
              && devices.Told(AnnounceAll(A2dp, old(devices.View()), es))
    {
      if !a2dpInstance && available {
        a2dpInstance := true;
      }
      if !a2dpInstance {
        return;
      }
      hide Apply, Announce;
      ghost var r := devices.View();
      ReconnectReported(q, reported);
      AddVirtuals(q, virtuals);
      ApplyAllConcat(A2dp, r, ReportedEvents(q, reported), VirtualEvents(q, virtuals));
      HeardJoins(devices.observerRegistered, old(devices.announced), AnnounceAll(A2dp, r, ReportedEvents(q, reported)),
                 AnnounceAll(A2dp, ApplyAll(A2dp, r, ReportedEvents(q, reported)), VirtualEvents(q, virtuals)));
    }
  }
}
