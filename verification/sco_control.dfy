/**
 The SCO link controller as a specification: what each command and each link event does to the
 controller's state, and which calls it makes of the hands-free gateway, whose answers are arbitrary.
 */
module ScoControl {
  import opened Wrappers
  import opened BluetoothTypes
  import opened DeviceRegistry
  import opened StopVirtualCall

  datatype AudioScene =
    | SceneInvalid
    | SceneDefault
    | SceneRinging
    | ScenePhoneCall
    | ScenePhoneChat
    | SceneCallStart
    | SceneCallEnd
    | SceneVoiceRinging
    | SceneMax

  datatype ScoCategory = ScoDefault | ScoCellular | ScoVirtual | ScoRecognition

  /** GetScoCategoryFromScene. */
  function CategoryOf(scene: AudioScene): ScoCategory {
    match scene
    case SceneVoiceRinging => ScoCellular
    case ScenePhoneCall => ScoCellular
    case SceneRinging => ScoVirtual
    case ScenePhoneChat => ScoVirtual
    case _ => ScoDefault
  }

  // HfpScoConnectState
  const SCO_DISCONNECTED := 3
  const SCO_CONNECTED := 6

  datatype BtState = BtConnected | BtDisconnected | BtInTransition

  /** What the gateway answers to the calls of one command; an integer answer of 0 is success. */
  datatype Answers = Answers(
    inbandRinging: bool, disconnectSco: int, connectSco: int,
    setActive: bool, openRecognition: bool, closeRecognition: bool)

  datatype Call =
    | DisconnectCall(category: ScoCategory, done: bool)
    | ConnectCall(category: ScoCategory, done: bool)
    | SetActiveCall(device: Address, done: bool)
    | OpenRecognitionCall(device: Address, done: bool)
    | CloseRecognitionCall(device: Address, done: bool)

  datatype Sco = Sco(
    hasGateway: bool, scene: AudioScene, policyScene: AudioScene, scoCategory: ScoCategory, active: Address)

  datatype Outcome = Outcome(sco: Sco, success: bool, calls: seq<Call>)

  function DisconnectLink(s: Sco, a: Answers): Outcome {
    var c := CategoryOf(s.scene);
    if c == ScoDefault then Outcome(s, true, [])
    else if !s.hasGateway then Outcome(s, false, [])
    else if a.disconnectSco != 0 then Outcome(s, false, [DisconnectCall(c, false)])
    else Outcome(s.(scene := SceneDefault), true, [DisconnectCall(c, true)])
  }

  function ConnectScene(s: Sco, scene: AudioScene, a: Answers): Outcome {
    var last, next := CategoryOf(s.scene), CategoryOf(scene);
    if s.scoCategory == ScoRecognition || last == next then Outcome(s, true, [])
    else if !s.hasGateway then Outcome(s, false, [])
    else if (scene == SceneRinging || scene == SceneVoiceRinging) && !a.inbandRinging then Outcome(s, true, [])
    else if last != ScoDefault && a.disconnectSco != 0 then Outcome(s, false, [DisconnectCall(last, false)])
    else
      var closing := if last == ScoDefault then [] else [DisconnectCall(last, true)];
      if next == ScoDefault then Outcome(s.(scene := scene), true, closing)
      else if a.connectSco != 0 then Outcome(s, false, closing + [ConnectCall(next, false)])
      else Outcome(s.(scene := scene), true, closing + [ConnectCall(next, true)])
  }

  function SetActive(s: Sco, connected: set<Address>, d: Address, a: Answers): Outcome {
    if d !in connected then Outcome(s, false, [])
    else
      var o := if d == s.active then Outcome(s, true, []) else DisconnectLink(s, a);
      if !o.success || !s.hasGateway then Outcome(o.sco, false, o.calls)
      else if !a.setActive then Outcome(o.sco, false, o.calls + [SetActiveCall(d, false)])
      else Outcome(o.sco.(active := d), true, o.calls + [SetActiveCall(d, true)])
  }

  function Recognize(s: Sco, handleFlag: bool, d: Address, a: Answers): Outcome {
    if !s.hasGateway then Outcome(s, false, [])
    else if handleFlag then
      if CategoryOf(s.scene) != ScoDefault || s.scoCategory == ScoRecognition then Outcome(s, true, [])
      else if a.openRecognition then
        Outcome(s.(scoCategory := ScoRecognition), true, [OpenRecognitionCall(d, true)])
      else Outcome(s, false, [OpenRecognitionCall(d, false)])
    else if s.scoCategory != ScoRecognition then Outcome(s, true, [])
    else if a.closeRecognition then
      Outcome(s.(scoCategory := ScoDefault), true, [CloseRecognitionCall(d, true)])
    else Outcome(s, false, [CloseRecognitionCall(d, false)])
  }

  /** The active device is gone, or its link is: nothing is active and no call scene is left. */
  function DropIfActive(s: Sco, d: Address): Sco {
    if d == s.active then s.(active := DEFAULT_ADDRESS, scene := SceneDefault) else s
  }

  function OnScoState(s: Sco, d: Address, state: int): Sco {
    if state == SCO_CONNECTED then s.(scene := s.policyScene, active := d)
    else if state == SCO_DISCONNECTED then DropIfActive(s, d)
    else s
  }

  /** The hands-free side as a whole: the device registry, the link controller, the stop handle. */
  datatype System = System(registry: Registry, sco: Sco, handle: StopHandle)

  const INITIAL :=
    System(EMPTY, Sco(false, SceneDefault, SceneDefault, ScoDefault, DEFAULT_ADDRESS), IDLE)

  /** Commands of the audio policy, then callbacks of the hands-free gateway, then the final clearing. */
  datatype Input =
    | ConnectSceneCommand(scene: AudioScene, answers: Answers)
    | DisconnectScoCommand(answers: Answers)
    | SetActiveCommand(device: Address, answers: Answers)
    | RecognitionCommand(handleFlag: bool, device: Address, answers: Answers)
    | PolicySceneCommand(scene: AudioScene)
    | RegisterCommand(available: bool)
    | UnregisterCommand
    | ScoStateEvent(device: Address, scoState: int, reason: ScoReason)
    | ConnectionEvent(device: Address, btState: BtState, category: DeviceCategory, wearDetection: bool)
    | StackEvent(event: Event)
    | ClearDevices

  /** The outcome of a command at the link controller. */
  function Handle(y: System, i: Input): Outcome {
    match i
    case ConnectSceneCommand(scene, a) => ConnectScene(y.sco, scene, a)
    case DisconnectScoCommand(a) => DisconnectLink(y.sco, a)
    case SetActiveCommand(d, a) => SetActive(y.sco, y.registry.connected, d, a)
    case RecognitionCommand(handleFlag, d, a) => Recognize(y.sco, handleFlag, d, a)
    case PolicySceneCommand(scene) => Outcome(y.sco.(policyScene := scene), true, [])
    case RegisterCommand(available) => Outcome(y.sco.(hasGateway := available), true, [])
    case UnregisterCommand => Outcome(y.sco.(hasGateway := false), true, [])
    case ScoStateEvent(d, state, _) => Outcome(OnScoState(y.sco, d, state), true, [])
    case ConnectionEvent(d, state, _, _) =>
      Outcome(if state == BtDisconnected then DropIfActive(y.sco, d) else y.sco, true, [])
    case _ => Outcome(y.sco, true, [])
  }

  /** The step of the device registry that an input brings. */
  function RegistryStep(i: Input): Option<Step> {
    match i
    case ConnectionEvent(d, BtConnected, category, wearDetection) =>
      Some(Act(Event(d, CONNECT_ACTION, category, wearDetection)))
    case ConnectionEvent(d, BtDisconnected, category, wearDetection) =>
      Some(Act(Event(d, DISCONNECT_ACTION, category, wearDetection)))
    case StackEvent(e) => Some(Act(e))
    case ClearDevices => Some(ClearAll)
    case _ => None
  }

  function SignalOf(i: Input): Signal {
    match i
    case StackEvent(e) => if IsStopRequest(e) then StopRequest(e.device) else Other
    case ScoStateEvent(d, state, reason) =>
      if state == SCO_CONNECTED || state == SCO_DISCONNECTED then ScoChange(d, state == SCO_CONNECTED, reason)
      else Other
    case _ => Other
  }

  function NextSystem(y: System, i: Input): System {
    System(match RegistryStep(i) case Some(s) => Next(Hfp, y.registry, s) case None => y.registry,
           Handle(y, i).sco,
           NextHandle(y.handle, SignalOf(i)))
  }

  function SystemAfter(run: seq<Input>): System {
    if run == [] then INITIAL else NextSystem(SystemAfter(run[..|run| - 1]), run[|run| - 1])
  }

  /** The signals of a run, one for each input. */
  function Signals(run: seq<Input>): seq<Signal> {
    seq(|run|, k requires 0 <= k < |run| => SignalOf(run[k]))
  }

  /** The registry steps of a run. */
  function RegistrySteps(run: seq<Input>): seq<Step> {
    if run == [] then []
    else
      RegistrySteps(run[..|run| - 1]) +
      match RegistryStep(run[|run| - 1]) case Some(s) => [s] case None => []
  }

  /** Every run of the system is a run of the registry and a run of the handshake. */
  lemma {:induction false} SystemProjects(run: seq<Input>)
    ensures SystemAfter(run).registry == Run(Hfp, RegistrySteps(run))
    ensures SystemAfter(run).handle == HandleAfter(Signals(run))
  {
    hide Next, NextHandle, Handle, RegistryStep, SignalOf;
    if run != [] {
      var before := run[..|run| - 1];
      SystemProjects(before);
      var steps := RegistrySteps(before);
      match RegistryStep(run[|run| - 1]) {
        case Some(s) => assert (steps + [s])[..|steps|] == steps;
        case None => assert RegistrySteps(run) == steps;
      }
      assert Signals(run)[..|run| - 1] == Signals(before);
    }
  }
}
