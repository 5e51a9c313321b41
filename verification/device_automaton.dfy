/**
 One device on its own: a small automaton that knows no lists and no other device. The registry,
 seen at any one address, is this automaton fed with that address's own actions.
 */
module DeviceAutomaton {
  import opened Wrappers
  import opened BluetoothTypes
  import opened ConfigVector
  import opened DeviceRegistry

  datatype DeviceState = DeviceState(
    connected: bool, wear: Option<WearState>, inPrivacy: bool, inCommon: bool, inNegative: bool)

  const ABSENT := DeviceState(false, None, false, false, false)

  function Project(r: Registry, a: Address): DeviceState {
    DeviceState(a in r.connected, if a in r.wear then Some(r.wear[a]) else None,
                a in r.privacy, a in r.common, a in r.negative)
  }

  function DeviceStep(s: DeviceState, e: Event): DeviceState {
    if e.action == VIRTUAL_DEVICE_ADD_ACTION then s.(inNegative := s.inNegative || !s.connected)
    else if e.action == VIRTUAL_DEVICE_REMOVE_ACTION then s.(inNegative := s.inNegative && s.connected)
    else if e.action == CONNECT_ACTION then
      if s.connected then s
      else
        var slot := Placement(e.category, e.wearDetection);
        DeviceState(true, s.wear, s.inPrivacy || slot == Privacy, s.inCommon || slot == Common, slot == Negative)
    else if !s.connected then s
    else if e.action == DISCONNECT_ACTION then ABSENT
    else if e.action == WEAR_ACTION then s.(wear := Some(Wear), inPrivacy := true, inNegative := false)
    else if e.action == UNWEAR_ACTION then s.(wear := Some(Unwear), inPrivacy := false, inNegative := true)
    else if e.action == ENABLE_WEAR_DETECTION_ACTION then
      s.(inPrivacy := s.wear == Some(Wear), inNegative := s.wear != Some(Wear))
    else if e.action == DISABLE_WEAR_DETECTION_ACTION then s.(inPrivacy := true, inNegative := false)
    else s
  }

  ghost predicate Distinct(r: Registry) {
    NoDuplicates(r.privacy) && NoDuplicates(r.common) && NoDuplicates(r.negative)
  }

  /** What registry r' holds at address a, when e turns r into r'. */
  ghost predicate Follows(r: Registry, e: Event, r': Registry, a: Address) {
    Distinct(r') && Project(r', a) == if a == e.device then DeviceStep(Project(r, a), e) else Project(r, a)
  }

  lemma ConnectProjects(r: Registry, e: Event, a: Address)
    requires Distinct(r) && e.action == CONNECT_ACTION
    ensures Follows(r, e, OnConnect(r, e.device, e.category, e.wearDetection), a)
  {
  }

  lemma DisconnectProjects(r: Registry, e: Event, a: Address)
    requires Distinct(r) && e.action == DISCONNECT_ACTION
    ensures Follows(r, e, OnDisconnect(r, e.device), a)
  {
  }

  lemma MoveProjects(r: Registry, d: Address, a: Address)
    requires Distinct(r)
    ensures Distinct(Promote(r, d)) && Distinct(Demote(r, d))
    ensures Project(Promote(r, d), a) ==
            if a == d then Project(r, a).(inPrivacy := true, inNegative := false) else Project(r, a)
    ensures Project(Demote(r, d), a) ==
            if a == d then Project(r, a).(inPrivacy := false, inNegative := true) else Project(r, a)
  {
  }

  lemma WearProjects(r: Registry, e: Event, a: Address)
    requires Distinct(r)
    ensures e.action == WEAR_ACTION ==> Follows(r, e, OnWear(r, e.device), a)
    ensures e.action == UNWEAR_ACTION ==> Follows(r, e, OnUnwear(r, e.device), a)
    ensures e.action == ENABLE_WEAR_DETECTION_ACTION ==> Follows(r, e, OnWearEnable(r, e.device), a)
    ensures e.action == DISABLE_WEAR_DETECTION_ACTION ==> Follows(r, e, OnWearDisable(r, e.device), a)
  {
    MoveProjects(r, e.device, a);
  }

  lemma VirtualProjects(r: Registry, e: Event, a: Address)
    requires Distinct(r)
    ensures e.action == VIRTUAL_DEVICE_ADD_ACTION ==> Follows(r, e, OnVirtualAdd(r, e.device), a)
    ensures e.action == VIRTUAL_DEVICE_REMOVE_ACTION ==> Follows(r, e, OnVirtualRemove(r, e.device), a)
  {
  }

  /** The device whose missing wear record a step creates by looking it up, if there is one. */
  function LookedUp(p: Profile, r: Registry, s: Step): Option<Address> {
    if s.Act? && s.event.action == USER_SELECTION_ACTION then
      match Forwarded(p, r, s.event.category)
      case Some(x) => if x in r.wear then None else Some(x)
      case None => None
    else None
  }

  /** One action seen at address a: its own automaton step, or nothing, or a looked-up wear record. */
  lemma StepProjects(p: Profile, r: Registry, s: Step, a: Address)
    requires Distinct(r)
    ensures Distinct(Next(p, r, s))
    ensures Project(Next(p, r, s), a) ==
            if LookedUp(p, r, s) == Some(a) then Project(r, a).(wear := Some(Wear))
            else if s.ClearAll? then ABSENT
            else if s.event.device == a then DeviceStep(Project(r, a), s.event)
            else Project(r, a)
  {
    hide OnConnect, OnDisconnect, OnWear, OnUnwear, OnWearEnable, OnWearDisable, OnVirtualAdd, OnVirtualRemove;
    match s
    case ClearAll =>
    case Act(e) =>
      if e.action == CONNECT_ACTION {
        ConnectProjects(r, e, a);
      } else if e.action == DISCONNECT_ACTION {
        DisconnectProjects(r, e, a);
      } else if IsWearAction(e.action) {
        WearProjects(r, e, a);
      } else if e.action == VIRTUAL_DEVICE_ADD_ACTION || e.action == VIRTUAL_DEVICE_REMOVE_ACTION {
        VirtualProjects(r, e, a);
      }
  }

  predicate IsWearAction(action: int) {
    action == WEAR_ACTION || action == UNWEAR_ACTION ||
    action == ENABLE_WEAR_DETECTION_ACTION || action == DISABLE_WEAR_DETECTION_ACTION
  }

  /** What reaches one address: a step of its own, or a wear record created by looking it up. */
  datatype Impact = Own(step: Step) | WearLookedUp

  /** The steps of a run that concern one address: its own actions, and the clearing of everything. */
  function OwnSteps(steps: seq<Step>, a: Address): seq<Impact> {
    if steps == [] then []
    else
      var s := steps[|steps| - 1];
      OwnSteps(steps[..|steps| - 1], a) + if s.ClearAll? || s.event.device == a then [Own(s)] else []
  }

  function Impacts(p: Profile, steps: seq<Step>, a: Address): seq<Impact> {
    if steps == [] then []
    else
      var before, s := steps[..|steps| - 1], steps[|steps| - 1];
      Impacts(p, before, a) +
      if LookedUp(p, Run(p, before), s) == Some(a) then [WearLookedUp]
      else if s.ClearAll? || s.event.device == a then [Own(s)]
      else []
  }

  function DeviceRun(impacts: seq<Impact>): DeviceState {
    if impacts == [] then ABSENT
    else
      var s := DeviceRun(impacts[..|impacts| - 1]);
      match impacts[|impacts| - 1]
      case Own(Act(e)) => DeviceStep(s, e)
      case Own(ClearAll) => ABSENT
      case WearLookedUp => s.(wear := Some(Wear))
  }

  lemma {:induction false} RunIsDistinct(p: Profile, steps: seq<Step>)
    ensures Distinct(Run(p, steps))
  {
    if steps != [] {
      RunIsDistinct(p, steps[..|steps| - 1]);
      StepProjects(p, Run(p, steps[..|steps| - 1]), steps[|steps| - 1], DEFAULT_ADDRESS);
    }
  }

  /**
   Per-device refinement. After any run over any mix of devices, what the registry holds about an
   address is what its automaton reaches on what reached that address.
   */
  lemma {:induction false} RunProjects(p: Profile, steps: seq<Step>, a: Address)
    ensures Project(Run(p, steps), a) == DeviceRun(Impacts(p, steps, a))
  {
    if steps != [] {
      hide Apply, DeviceStep;
      var before, s := steps[..|steps| - 1], steps[|steps| - 1];
      RunProjects(p, before, a);
      RunIsDistinct(p, before);
      StepProjects(p, Run(p, before), s, a);
      var impacts := Impacts(p, before, a);
      assert impacts + [] == impacts;
      assert forall i: Impact :: (impacts + [i])[..|impacts|] == impacts;
    }
  }

  /** In the media manager nothing but an address's own steps ever reaches it. */
  lemma MediaDevicesNeverInterfere(steps: seq<Step>, a: Address)
    ensures Project(Run(A2dp, steps), a) == DeviceRun(OwnSteps(steps, a))
  {
    hide *;
    RunProjects(A2dp, steps, a);
    MediaImpactsAreOwn(steps, a);
  }

  lemma {:induction false} MediaImpactsAreOwn(steps: seq<Step>, a: Address)
    ensures Impacts(A2dp, steps, a) == OwnSteps(steps, a)
  {
    hide Apply, Run;
    if steps != [] {
      MediaImpactsAreOwn(steps[..|steps| - 1], a);
    }
  }

  /**
   In the hands-free manager a looked-up record is the only interference between devices: it is made
   for one privacy device without a record, and touches nothing else of it and nothing of any other.
   */
  lemma LookUpTouchesWearOnly(r: Registry, s: Step, a: Address)
    requires Distinct(r) && LookedUp(Hfp, r, s) == Some(a)
    ensures Project(r, a).wear == None && a in r.privacy
    ensures Project(Next(Hfp, r, s), a) == Project(r, a).(wear := Some(Wear))
    ensures forall b | b != a :: Project(Next(Hfp, r, s), b) == Project(r, b)
  {
    LastWornFound(r.privacy, r.wear);
  }

  /** The device found by a selection is on the list and not marked unworn; none means all are. */
  lemma {:induction false} LastWornFound(v: seq<Address>, wear: map<Address, WearState>)
    ensures LastWorn(v, wear).Some? ==>
              var x := LastWorn(v, wear).value; x in v && !(x in wear && wear[x] == Unwear)
    ensures LastWorn(v, wear).None? <==> forall x | x in v :: x in wear && wear[x] == Unwear
  {
    if v != [] {
      var rest := v[..|v| - 1];
      assert v == rest + [v[|v| - 1]];
      LastWornFound(rest, wear);
    }
  }
}
