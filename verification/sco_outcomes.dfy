/**
 What the commands of the audio policy and the reports of the gateway achieve: exactly when a command
 succeeds, which calls it makes of the gateway, and which link, scene and recognition it leaves, after
 every run.
 */
module ScoOutcomes {
  import opened Wrappers
  import opened BluetoothTypes
  import opened DeviceRegistry
  import opened StopVirtualCall
  import opened ScoControl
  import opened ScoProperties

  /** Which scenes stand for which call link; no scene stands for a recognition. */
  lemma SceneCategories(scene: AudioScene)
    ensures CategoryOf(scene) == ScoCellular <==> scene == ScenePhoneCall || scene == SceneVoiceRinging
    ensures CategoryOf(scene) == ScoVirtual <==> scene == ScenePhoneChat || scene == SceneRinging
    ensures CategoryOf(scene) != ScoRecognition
  {
  }

  lemma StepOfRun(run: seq<Input>, i: Input)
    ensures SystemAfter(run + [i]) == NextSystem(SystemAfter(run), i)
    ensures SystemAfter(run + [i]).sco == Handle(SystemAfter(run), i).sco
    ensures TrackAfter(run + [i]) == NextTrack(SystemAfter(run), TrackAfter(run), i)
  {
    hide NextTrack, Handle;
    assert (run + [i])[..|run|] == run;
  }

  /* Scenes. */

  /** A ring whose tone the remote device plays by itself needs no link. */
  predicate BarredRing(scene: AudioScene, a: Answers) {
    (scene == SceneRinging || scene == SceneVoiceRinging) && !a.inbandRinging
  }

  /** During recognition, without a change of category, or for a barred ring, a scene command does nothing. */
  lemma IgnoredScene(y: System, scene: AudioScene, a: Answers)
    requires || y.sco.scoCategory == ScoRecognition || CategoryOf(scene) == CategoryOf(y.sco.scene)
             || (y.sco.hasGateway && BarredRing(scene, a))
    ensures Handle(y, ConnectSceneCommand(scene, a)) == Outcome(y.sco, true, [])
  {
  }

  /**
   Any other scene command closes the link of the recorded scene, if that is a call, and then opens the
   one of the new scene, if that is a call. It succeeds exactly with a gateway that answers every needed
   call well, and then records the scene; else it records nothing.
   */
  lemma SceneOutcome(y: System, scene: AudioScene, a: Answers)
    requires y.sco.scoCategory != ScoRecognition && CategoryOf(scene) != CategoryOf(y.sco.scene)
    requires y.sco.hasGateway ==> !BarredRing(scene, a)
    ensures var o := Handle(y, ConnectSceneCommand(scene, a));
            var last, next := CategoryOf(y.sco.scene), CategoryOf(scene);
            var canClose := last == ScoDefault || a.disconnectSco == 0;
            var canOpen := next == ScoDefault || a.connectSco == 0;
            && (o.success <==> y.sco.hasGateway && canClose && canOpen)
            && o.sco == (if o.success then y.sco.(scene := scene) else y.sco)
            && o.calls == if !y.sco.hasGateway then []
                          else (if last == ScoDefault then [] else [DisconnectCall(last, a.disconnectSco == 0)]) +
                               (if !canClose || next == ScoDefault then [] else [ConnectCall(next, a.connectSco == 0)])
  {
  }

  /** The state of link and scene that a scene command starts from. */
  ghost predicate Reached(run: seq<Input>) {
    CommandsOnly(run) || CompatibleRun(run)
  }

  lemma ReachedAgrees(run: seq<Input>)
    requires Reached(run)
    ensures Agree(SystemAfter(run).sco, TrackAfter(run))
  {
    if CommandsOnly(run) {
      LinkAgreement(run);
    } else {
      RunConsistent(run);
    }
  }

  /** What a scene command leaves of the link, when link and scene agreed. */
  lemma SceneLinkOutcome(y: System, t: Track, scene: AudioScene, a: Answers)
    requires Agree(y.sco, t)
    requires y.sco.scoCategory != ScoRecognition && CategoryOf(scene) != CategoryOf(y.sco.scene)
    requires y.sco.hasGateway ==> !BarredRing(scene, a)
    ensures var i := ConnectSceneCommand(scene, a);
            var last, next, link' := CategoryOf(y.sco.scene), CategoryOf(scene), LinkCategory(NextTrack(y, t, i));
            && (Handle(y, i).success ==> link' == if next == ScoDefault then None else Some(next))
            && (!Handle(y, i).success && y.sco.hasGateway && (last == ScoDefault || a.disconnectSco == 0) ==>
                  link' == None)
            && (!y.sco.hasGateway || (last != ScoDefault && a.disconnectSco != 0) ==> NextTrack(y, t, i) == t)
  {
    hide Handle, AfterCalls, CategoryOf;
    SceneOutcome(y, scene, a);
    FewCalls(t, Handle(y, ConnectSceneCommand(scene, a)).calls);
    SceneCategories(scene);
    SceneCategories(y.sco.scene);
  }

  /**
   After every run of commands, and every compatible run: outside recognition, a command for a scene of
   another category that is no barred ring opens the link of that category, or closes the link for a
   scene without a call, exactly if the gateway is there and answers every needed call well. If only
   the connection fails there is no link left, and if the disconnection fails the link stays.
   */
  lemma SceneCommandLink(run: seq<Input>, scene: AudioScene, a: Answers)
    requires Reached(run)
    ensures var y, i := SystemAfter(run), ConnectSceneCommand(scene, a);
            var last, next := CategoryOf(y.sco.scene), CategoryOf(scene);
            var canClose := last == ScoDefault || a.disconnectSco == 0;
            var canOpen := next == ScoDefault || a.connectSco == 0;
            var t' := TrackAfter(run + [i]);
            if y.sco.scoCategory == ScoRecognition || last == next || (y.sco.hasGateway && BarredRing(scene, a)) then
              Handle(y, i).success && Handle(y, i).calls == [] && t' == TrackAfter(run)
            else
              && (Handle(y, i).success <==> y.sco.hasGateway && canClose && canOpen)
              && (Handle(y, i).success ==>
                    && LinkCategory(t') == (if next == ScoDefault then None else Some(next))
                    && SystemAfter(run + [i]).sco.scene == scene)
              && (y.sco.hasGateway && canClose && !canOpen ==> t'.link == None)
              && (!y.sco.hasGateway || !canClose ==> t' == TrackAfter(run))
  {
    hide Handle, AfterCalls, CategoryOf, TrackAfter, SystemAfter, Reached, Agree;
    var y, i := SystemAfter(run), ConnectSceneCommand(scene, a);
    StepOfRun(run, i);
    ReachedAgrees(run);
    if y.sco.scoCategory == ScoRecognition || CategoryOf(scene) == CategoryOf(y.sco.scene) ||
       (y.sco.hasGateway && BarredRing(scene, a)) {
      IgnoredScene(y, scene, a);
      FewCalls(TrackAfter(run), []);
    } else {
      SceneOutcome(y, scene, a);
      SceneLinkOutcome(y, TrackAfter(run), scene, a);
    }
  }

  /* Disconnecting. */

  /**
   Without a call scene there is nothing to do; otherwise the gateway is asked to close the link of the
   scene, and exactly if it does the command succeeds and the scene is the default one.
   */
  lemma DisconnectOutcome(y: System, a: Answers)
    ensures var o, c := Handle(y, DisconnectScoCommand(a)), CategoryOf(y.sco.scene);
            && (o.success <==> c == ScoDefault || (y.sco.hasGateway && a.disconnectSco == 0))
            && o.calls == (if c == ScoDefault || !y.sco.hasGateway then []
                           else [DisconnectCall(c, a.disconnectSco == 0)])
            && o.sco == if o.success && c != ScoDefault then y.sco.(scene := SceneDefault) else y.sco
  {
  }

  /** After such a run a good disconnect leaves no call link and no call scene. */
  lemma DisconnectClosesLink(run: seq<Input>, a: Answers)
    requires Reached(run)
    ensures var y, i := SystemAfter(run), DisconnectScoCommand(a);
            if Handle(y, i).success
            then TrackAfter(run + [i]).link == None && CategoryOf(SystemAfter(run + [i]).sco.scene) == ScoDefault
            else TrackAfter(run + [i]) == TrackAfter(run)
  {
    hide Handle, AfterCalls, TrackAfter, SystemAfter, Reached;
    var y, i := SystemAfter(run), DisconnectScoCommand(a);
    StepOfRun(run, i);
    ReachedAgrees(run);
    DisconnectOutcome(y, a);
    FewCalls(TrackAfter(run), Handle(y, i).calls);
  }

  /* Recognition. */

  /**
   Opening and closing recognition. A request is ignored if a call scene or a recognition is in the way
   of opening, or there is nothing to close; otherwise the gateway is asked for just that, and exactly
   if it agrees the command succeeds and the recognition is recorded or over. Without a gateway it fails.
   */
  lemma RecognitionOutcome(y: System, handleFlag: bool, d: Address, a: Answers)
    ensures var o, s := Handle(y, RecognitionCommand(handleFlag, d, a)), y.sco;
            var needed := if handleFlag then CategoryOf(s.scene) == ScoDefault && s.scoCategory != ScoRecognition
                          else s.scoCategory == ScoRecognition;
            var granted := if handleFlag then a.openRecognition else a.closeRecognition;
            && (o.success <==> s.hasGateway && (needed ==> granted))
            && o.calls == (if !s.hasGateway || !needed then []
                           else if handleFlag then [OpenRecognitionCall(d, granted)]
                           else [CloseRecognitionCall(d, granted)])
            && o.sco == if s.hasGateway && needed && granted
                        then s.(scoCategory := if handleFlag then ScoRecognition else ScoDefault) else s
  {
  }

  /**
   After every run: what a request leaves is a recognition if it asks for one and succeeds without a call
   scene, none if it ends one and succeeds, and otherwise what there was.
   */
  lemma RecognitionCommandSession(run: seq<Input>, handleFlag: bool, d: Address, a: Answers)
    ensures var y, i := SystemAfter(run), RecognitionCommand(handleFlag, d, a);
            SessionAfter(run + [i]) <==>
              if !Handle(y, i).success then SessionAfter(run)
              else if handleFlag then SessionAfter(run) || CategoryOf(y.sco.scene) == ScoDefault
              else false
  {
    hide Handle, SystemAfter, SessionAfter;
    var y, i := SystemAfter(run), RecognitionCommand(handleFlag, d, a);
    StepOfRun(run, i);
    RecognitionOutcome(y, handleFlag, d, a);
    RecognitionIsTracked(run, i, 0);
    RecognitionIsTracked(run + [i], i, 0);
  }

  /* Making a device active. */

  /** Which calls SetActive makes: the link of another device is closed first, and nothing follows a failure. */
  lemma SetActiveCalls(y: System, d: Address, a: Answers)
    ensures var o, c := Handle(y, SetActiveCommand(d, a)), CategoryOf(y.sco.scene);
            var closes := d in y.registry.connected && d != y.sco.active && c != ScoDefault && y.sco.hasGateway;
            var asks := d in y.registry.connected && y.sco.hasGateway && (closes ==> a.disconnectSco == 0);
            && o.calls == (if closes then [DisconnectCall(c, a.disconnectSco == 0)] else []) +
                          (if asks then [SetActiveCall(d, a.setActive)] else [])
            && o.sco == y.sco.(active := if asks && a.setActive then d else y.sco.active,
                               scene := if closes && a.disconnectSco == 0 then SceneDefault else y.sco.scene)
  {
  }

  /* Reports and settings. */

  /**
   A link report that a link is up makes its device active under the policy's scene; one that the active
   device lost its link leaves no active device and no call scene; the others leave both alone. None
   makes a call, and none reaches the registry.
   */
  lemma ScoReportOutcome(y: System, d: Address, state: int, reason: ScoReason)
    ensures var i := ScoStateEvent(d, state, reason);
            && Handle(y, i).calls == [] && NextSystem(y, i).registry == y.registry
            && NextSystem(y, i).sco ==
               if state == SCO_CONNECTED then y.sco.(scene := y.sco.policyScene, active := d)
               else if state == SCO_DISCONNECTED && d == y.sco.active
               then y.sco.(scene := SceneDefault, active := DEFAULT_ADDRESS)
               else y.sco
  {
  }

  /** A connection report is an action of the registry, but one of a connection in transition is nothing. */
  lemma ConnectionReportOutcome(y: System, d: Address, state: BtState, category: DeviceCategory, wearDetection: bool)
    ensures var i := ConnectionEvent(d, state, category, wearDetection);
            var lost := state == BtDisconnected && d == y.sco.active;
            var action := if state == BtConnected then CONNECT_ACTION else DISCONNECT_ACTION;
            && Handle(y, i).calls == []
            && NextSystem(y, i) ==
               if state == BtInTransition then y
               else System(Apply(Hfp, y.registry, Event(d, action, category, wearDetection)),
                           if lost then y.sco.(scene := SceneDefault, active := DEFAULT_ADDRESS) else y.sco,
                           y.handle)
  {
    hide Apply;
  }

  /** A stop request for a virtual call is the one stack action that reaches the handle. */
  lemma StackActionOutcome(y: System, e: Event)
    ensures NextSystem(y, StackEvent(e)) ==
            System(Apply(Hfp, y.registry, e), y.sco,
                   if e.action == STOP_VIRTUAL_CALL then StopHandle(e.device, true) else y.handle)
  {
    hide Apply;
  }

  /** The settings change what they name, and nothing is asked of the gateway. */
  lemma SettingsOutcome(y: System, scene: AudioScene, available: bool)
    ensures NextSystem(y, PolicySceneCommand(scene)) == y.(sco := y.sco.(policyScene := scene))
    ensures NextSystem(y, RegisterCommand(available)) == y.(sco := y.sco.(hasGateway := available))
    ensures NextSystem(y, UnregisterCommand) == y.(sco := y.sco.(hasGateway := false))
    ensures forall i | i in [PolicySceneCommand(scene), RegisterCommand(available), UnregisterCommand] ::
              Handle(y, i).calls == []
  {
  }
}
