/**
 What the link controller keeps over every run with arbitrary gateway answers. The link itself is
 followed from the recorded gateway calls and from the reports about its device alone.
 */
module ScoProperties {
  import opened Wrappers
  import opened BluetoothTypes
  import opened DeviceRegistry
  import opened StopVirtualCall
  import opened ScoControl

  /** A call link that a command opened, on the device that was active at the gateway then. */
  datatype OpenLink = OpenLink(category: ScoCategory, device: Address)

  /** The device that was last made active at the gateway, and the link that is not closed yet. */
  datatype Track = Track(gatewayDevice: Address, link: Option<OpenLink>)

  const NO_LINK := Track(DEFAULT_ADDRESS, None)

  function LinkCategory(t: Track): Option<ScoCategory> {
    if t.link.Some? then Some(t.link.value.category) else None
  }

  function AfterCall(t: Track, c: Call): Track {
    match c
    case SetActiveCall(d, true) => t.(gatewayDevice := d)
    case ConnectCall(category, true) => t.(link := Some(OpenLink(category, t.gatewayDevice)))
    case DisconnectCall(category, true) => if LinkCategory(t) == Some(category) then t.(link := None) else t
    case _ => t
  }

  function AfterCalls(t: Track, calls: seq<Call>): Track {
    if calls == [] then t else AfterCall(AfterCalls(t, calls[..|calls| - 1]), calls[|calls| - 1])
  }

  /** The input reports that a device lost its link or its connection. */
  predicate ReportsLost(i: Input, d: Address) {
    || (i.ScoStateEvent? && i.scoState == SCO_DISCONNECTED && i.device == d)
    || (i.ConnectionEvent? && i.btState == BtDisconnected && i.device == d)
  }

  function AfterReport(t: Track, i: Input): Track {
    if t.link.Some? && ReportsLost(i, t.link.value.device) then t.(link := None) else t
  }

  function NextTrack(y: System, t: Track, i: Input): Track {
    AfterCalls(AfterReport(t, i), Handle(y, i).calls)
  }

  function TrackAfter(run: seq<Input>): Track {
    if run == [] then NO_LINK
    else
      var before := run[..|run| - 1];
      NextTrack(SystemAfter(before), TrackAfter(before), run[|run| - 1])
  }

  /** The category of the link that the recorded scene stands for. */
  function SceneLink(s: Sco): Option<ScoCategory> {
    if CategoryOf(s.scene) == ScoDefault then None else Some(CategoryOf(s.scene))
  }

  lemma FewCalls(t: Track, calls: seq<Call>)
    requires |calls| <= 2
    ensures AfterCalls(t, calls) ==
              if |calls| == 0 then t
              else if |calls| == 1 then AfterCall(t, calls[0])
              else AfterCall(AfterCall(t, calls[0]), calls[1])
    ensures |calls| > 0 ==> AfterCalls(t, calls[..0]) == t && AfterCalls(t, calls[..1]) == AfterCall(t, calls[0])
  {
    hide AfterCall;
    if |calls| > 0 {
      assert calls[..0] == [];
      assert [calls[0]][..0] == [];
      assert AfterCalls(t, [calls[0]]) == AfterCall(t, calls[0]);
      assert calls[..1] == [calls[0]];
    }
  }

  /* Agreement of link and scene over commands. */

  /** Everything but the reports of a link or a connection that came up or went down by itself. */
  predicate IsCommand(i: Input) {
    !i.ScoStateEvent? && !(i.ConnectionEvent? && i.btState == BtDisconnected)
  }

  lemma AtMostTwoCalls(y: System, i: Input)
    ensures |Handle(y, i).calls| <= 2
    ensures !IsCommand(i) ==> Handle(y, i).calls == []
  {
  }

  ghost predicate CommandsOnly(run: seq<Input>) {
    forall k | 0 <= k < |run| :: IsCommand(run[k])
  }

  /** The calls of a switch from one call category to another whose second half failed. */
  predicate LostSwitch(calls: seq<Call>) {
    |calls| == 2 && calls[0].DisconnectCall? && calls[0].done && calls[1].ConnectCall? && !calls[1].done
  }

  predicate LinkDone(c: Call) {
    (c.ConnectCall? || c.DisconnectCall?) && c.done
  }

  /** The gateway carried out what the command wanted of the link, in its first or its last call. */
  predicate Settled(calls: seq<Call>) {
    |calls| > 0 && !LostSwitch(calls) && (LinkDone(calls[0]) || LinkDone(calls[|calls| - 1]))
  }

  /** A switch was lost and nothing was settled since, as the recorded calls tell it. */
  predicate LostSince(run: seq<Input>) {
    run != [] &&
    var before := run[..|run| - 1];
    var calls := Handle(SystemAfter(before), run[|run| - 1]).calls;
    LostSwitch(calls) || (!Settled(calls) && LostSince(before))
  }

  /** The link is down or as the scene says. */
  predicate Agree(s: Sco, t: Track) {
    LinkCategory(t) == None || LinkCategory(t) == SceneLink(s)
  }

  /** An outcome keeps that, and reaches the scene's category unless it is a lost switch or settles nothing. */
  predicate KeepsAgreement(s: Sco, t: Track, o: Outcome) {
    var t', want := AfterCalls(t, o.calls), SceneLink(o.sco);
    && (LinkCategory(t') == None || LinkCategory(t') == want)
    && (LinkCategory(t') == want <==> !LostSwitch(o.calls) && (Settled(o.calls) || LinkCategory(t) == SceneLink(s)))
  }

  lemma ConnectSceneAgrees(s: Sco, scene: AudioScene, a: Answers, t: Track)
    requires Agree(s, t)
    ensures KeepsAgreement(s, t, ConnectScene(s, scene, a))
  {
    hide AfterCalls, CategoryOf;
    FewCalls(t, ConnectScene(s, scene, a).calls);
  }

  lemma DisconnectLinkAgrees(s: Sco, a: Answers, t: Track)
    requires Agree(s, t)
    ensures KeepsAgreement(s, t, DisconnectLink(s, a))
  {
    hide AfterCalls;
    FewCalls(t, DisconnectLink(s, a).calls);
  }

  lemma SetActiveAgrees(s: Sco, connected: set<Address>, d: Address, a: Answers, t: Track)
    requires Agree(s, t)
    ensures KeepsAgreement(s, t, SetActive(s, connected, d, a))
  {
    hide AfterCalls;
    FewCalls(t, SetActive(s, connected, d, a).calls);
  }

  lemma RecognizeAgrees(s: Sco, handleFlag: bool, d: Address, a: Answers, t: Track)
    requires Agree(s, t)
    ensures KeepsAgreement(s, t, Recognize(s, handleFlag, d, a))
  {
    hide AfterCalls;
    FewCalls(t, Recognize(s, handleFlag, d, a).calls);
  }

  /** One command, whatever the gateway answers. */
  lemma CommandAgreement(y: System, i: Input, t: Track)
    requires IsCommand(i) && Agree(y.sco, t)
    ensures var calls := Handle(y, i).calls;
            var link', want := LinkCategory(NextTrack(y, t, i)), SceneLink(Handle(y, i).sco);
            && (link' == None || link' == want)
            && (link' == want <==> !LostSwitch(calls) && (Settled(calls) || LinkCategory(t) == SceneLink(y.sco)))
  {
    hide ConnectScene, DisconnectLink, SetActive, Recognize, LinkCategory, CategoryOf;
    match i
    case ConnectSceneCommand(scene, a) => ConnectSceneAgrees(y.sco, scene, a, t);
    case DisconnectScoCommand(a) => DisconnectLinkAgrees(y.sco, a, t);
    case SetActiveCommand(d, a) => SetActiveAgrees(y.sco, y.registry.connected, d, a, t);
    case RecognitionCommand(handleFlag, d, a) => RecognizeAgrees(y.sco, handleFlag, d, a, t);
    case _ =>
  }

  /**
   Over every run of commands the open link is none or the category of the recorded scene, and it is
   that category exactly as long as no switch was lost since link and scene last agreed.
   */
  lemma {:induction false} LinkAgreement(run: seq<Input>)
    requires CommandsOnly(run)
    ensures var link, want := LinkCategory(TrackAfter(run)), SceneLink(SystemAfter(run).sco);
            && (link == None || link == want)
            && (link == want <==> !LostSince(run))
  {
    hide Handle, NextTrack, NextSystem, IsCommand, LostSwitch, Settled;
    if run != [] {
      var before, i := run[..|run| - 1], run[|run| - 1];
      LinkAgreement(before);
      assert IsCommand(i);
      CommandAgreement(SystemAfter(before), i, TrackAfter(before));
      StepOfSystem(SystemAfter(before), i);
    }
  }

  /* Recognition and calls exclude each other, over commands and link events. */

  ghost predicate Consistent(y: System, t: Track) {
    && Agree(y.sco, t)
    && (y.sco.scoCategory == ScoRecognition ==> CategoryOf(y.sco.scene) == ScoDefault)
    && y.sco.scoCategory in {ScoDefault, ScoRecognition}
  }

  /**
   A link that came up by itself while a commanded call link is open finds that call's category as
   the policy's scene, and one that came up during recognition finds no call scene.
   */
  predicate PolicyAgrees(y: System, t: Track, i: Input) {
    i.ScoStateEvent? && i.scoState == SCO_CONNECTED ==>
      var c := CategoryOf(y.sco.policyScene);
      (t.link.Some? ==> t.link.value.category == c) && (y.sco.scoCategory == ScoRecognition ==> c == ScoDefault)
  }

  /** A report that the active device is lost finds no commanded call link open on another device. */
  predicate LossAgrees(y: System, t: Track, i: Input) {
    ReportsLost(i, y.sco.active) && t.link.Some? ==> t.link.value.device == y.sco.active
  }

  predicate Compatible(y: System, t: Track, i: Input) {
    PolicyAgrees(y, t, i) && LossAgrees(y, t, i)
  }

  lemma StepOfSystem(y: System, i: Input)
    ensures NextSystem(y, i).sco == Handle(y, i).sco
  {
  }

  /** Commands leave recognition apart from a call scene. */
  lemma CommandsKeepApart(y: System, i: Input)
    requires IsCommand(i)
    requires y.sco.scoCategory == ScoRecognition ==> CategoryOf(y.sco.scene) == ScoDefault
    requires y.sco.scoCategory in {ScoDefault, ScoRecognition}
    ensures var s := Handle(y, i).sco;
            && (s.scoCategory == ScoRecognition ==> CategoryOf(s.scene) == ScoDefault)
            && s.scoCategory in {ScoDefault, ScoRecognition}
  {
  }

  /** One step keeps link, scene and recognition consistent exactly when the input is compatible. */
  lemma ConsistentIff(y: System, t: Track, i: Input)
    requires Consistent(y, t)
    ensures Consistent(NextSystem(y, i), NextTrack(y, t, i)) <==> Compatible(y, t, i)
  {
    hide NextSystem;
    StepOfSystem(y, i);
    if IsCommand(i) {
      CommandAgreement(y, i, t);
      CommandsKeepApart(y, i);
    } else {
      AtMostTwoCalls(y, i);
    }
  }

  ghost predicate CompatibleRun(run: seq<Input>) {
    forall k | 0 <= k < |run| :: Compatible(SystemAfter(run[..k]), TrackAfter(run[..k]), run[k])
  }

  lemma {:induction false} RunConsistent(run: seq<Input>)
    requires CompatibleRun(run)
    ensures Consistent(SystemAfter(run), TrackAfter(run))
  {
    hide Compatible, NextSystem, NextTrack;
    if run != [] {
      var before := run[..|run| - 1];
      assert forall k | 0 <= k < |before| :: before[..k] == run[..k];
      assert run[..|run| - 1] == before;
      RunConsistent(before);
      ConsistentIff(SystemAfter(before), TrackAfter(before), run[|run| - 1]);
    }
  }

  /** What a consistent state allows the calls of a command to be. */
  ghost predicate CallAllowed(y: System, t: Track, calls: seq<Call>, m: nat)
    requires m < |calls|
  {
    && (calls[m].OpenRecognitionCall? ==> t.link == None && y.sco.scoCategory == ScoDefault)
    && (calls[m].ConnectCall? ==> AfterCalls(t, calls[..m]).link == None && y.sco.scoCategory == ScoDefault)
    && (calls[m].DisconnectCall? ==> t.link == None || t.link.value.category == calls[m].category)
  }

  /** Which calls a command makes, told from the recorded scene alone. */
  lemma CallsOfScene(y: System, i: Input, m: nat)
    requires m < |Handle(y, i).calls|
    ensures var calls, c := Handle(y, i).calls, CategoryOf(y.sco.scene);
            && m <= 1
            && (calls[m].OpenRecognitionCall? ==> c == ScoDefault && y.sco.scoCategory != ScoRecognition)
            && (calls[m].ConnectCall? ==>
                  y.sco.scoCategory != ScoRecognition &&
                  if m == 0 then c == ScoDefault else calls[0] == DisconnectCall(c, true))
            && (calls[m].DisconnectCall? ==> m == 0 && c != ScoDefault && calls[m].category == c)
  {
  }

  lemma ConsistentCalls(y: System, t: Track, i: Input, m: nat)
    requires Consistent(y, t) && m < |Handle(y, i).calls|
    ensures CallAllowed(y, t, Handle(y, i).calls, m)
  {
    hide AfterCalls, Handle, CategoryOf;
    AtMostTwoCalls(y, i);
    FewCalls(t, Handle(y, i).calls);
    CallsOfScene(y, i, m);
  }

  /**
   Over every compatible run: recognition holds only without a call scene and without a call link;
   recognition is opened, and a call link is connected, only while no commanded call link is open; and
   no call link is connected during recognition.
   */
  lemma RecognitionExcludesCalls(run: seq<Input>, i: Input)
    requires CompatibleRun(run)
    ensures var y, t := SystemAfter(run), TrackAfter(run);
            && (y.sco.scoCategory == ScoRecognition ==> CategoryOf(y.sco.scene) == ScoDefault && t.link == None)
            && forall m: nat | m < |Handle(y, i).calls| :: CallAllowed(y, t, Handle(y, i).calls, m)
  {
    hide Handle, CompatibleRun, CallAllowed;
    RunConsistent(run);
    var y, t := SystemAfter(run), TrackAfter(run);
    forall m: nat | m < |Handle(y, i).calls| ensures CallAllowed(y, t, Handle(y, i).calls, m) {
      ConsistentCalls(y, t, i, m);
    }
  }

  /** Whether a voice recognition that the gateway opened is still open, as the recorded calls tell it. */
  function SessionAfter(run: seq<Input>): bool {
    run != [] &&
    var before := run[..|run| - 1];
    var calls := Handle(SystemAfter(before), run[|run| - 1]).calls;
    if calls != [] && calls[0].OpenRecognitionCall? && calls[0].done then true
    else if calls != [] && calls[0].CloseRecognitionCall? && calls[0].done then false
    else SessionAfter(before)
  }

  lemma SessionStep(y: System, i: Input)
    ensures var calls := Handle(y, i).calls;
            var was, now := y.sco.scoCategory == ScoRecognition, Handle(y, i).sco.scoCategory == ScoRecognition;
            && now == (if calls != [] && calls[0].OpenRecognitionCall? && calls[0].done then true
                       else if calls != [] && calls[0].CloseRecognitionCall? && calls[0].done then false
                       else was)
            && forall m: nat | m < |calls| ::
                 && (calls[m].OpenRecognitionCall? ==> m == 0 && !was)
                 && (calls[m].CloseRecognitionCall? ==> m == 0 && was)
  {
  }

  /**
   Over every run whatsoever the recorded category says recognition exactly while a recognition that
   the gateway opened is open; none is opened twice, and only an open one is closed.
   */
  lemma {:induction false} RecognitionIsTracked(run: seq<Input>, i: Input, m: nat)
    ensures SessionAfter(run) <==> SystemAfter(run).sco.scoCategory == ScoRecognition
    ensures var calls := Handle(SystemAfter(run), i).calls;
            m < |calls| ==>
              && (calls[m].OpenRecognitionCall? ==> !SessionAfter(run))
              && (calls[m].CloseRecognitionCall? ==> SessionAfter(run))
  {
    hide Handle, NextSystem;
    SessionStep(SystemAfter(run), i);
    if run != [] {
      var before, last := run[..|run| - 1], run[|run| - 1];
      RecognitionIsTracked(before, last, 0);
      SessionStep(SystemAfter(before), last);
      assert SystemAfter(run).sco == Handle(SystemAfter(before), last).sco by {
        StepOfSystem(SystemAfter(before), last);
      }
    }
  }

  const OBLIGING := Answers(true, 0, 0, true, true, true)

  /**
   A condition on recognition alone is not enough: a link report that finds no call scene during a
   commanded call, outside recognition, lets recognition be opened while the call link is up.
   */
  lemma DefaultPolicySceneIsNotEnough(d: Address)
    ensures var i2 := ConnectSceneCommand(ScenePhoneCall, OBLIGING);
            var i3 := ScoStateEvent(d, SCO_CONNECTED, OtherReason(0));
            var y1 := NextSystem(INITIAL, RegisterCommand(true));
            var y2 := NextSystem(y1, i2);
            var y3 := NextSystem(y2, i3);
            && y1.sco.scoCategory == y2.sco.scoCategory == y3.sco.scoCategory == ScoDefault
            && LinkCategory(NextTrack(y2, NextTrack(y1, NO_LINK, i2), i3)) == Some(ScoCellular)
            && Handle(y3, RecognitionCommand(true, d, OBLIGING)).calls == [OpenRecognitionCall(d, true)]
  {
    hide AfterCalls, Next, NextHandle, SignalOf, RegistryStep;
    var i2 := ConnectSceneCommand(ScenePhoneCall, OBLIGING);
    var y1 := NextSystem(INITIAL, RegisterCommand(true));
    assert Handle(y1, i2).calls == [ConnectCall(ScoCellular, true)];
    FewCalls(NO_LINK, [ConnectCall(ScoCellular, true)]);
    FewCalls(NextTrack(y1, NO_LINK, i2), []);
  }

  /** The gateway is registered, then two devices connect. */
  lemma TwoConnected(a: Address, b: Address, category: DeviceCategory) returns (y3: System)
    ensures var y1 := NextSystem(INITIAL, RegisterCommand(true));
            var y2 := NextSystem(y1, ConnectionEvent(a, BtConnected, category, false));
            y3 == NextSystem(y2, ConnectionEvent(b, BtConnected, category, false))
    ensures y3.sco == INITIAL.sco.(hasGateway := true) && a in y3.registry.connected && b in y3.registry.connected
  {
    var y1 := NextSystem(INITIAL, RegisterCommand(true));
    var y2 := NextSystem(y1, ConnectionEvent(a, BtConnected, category, false));
    y3 := NextSystem(y2, ConnectionEvent(b, BtConnected, category, false));
    ConnectedAfter(y1.registry, Event(a, CONNECT_ACTION, category, false));
    ConnectedAfter(y2.registry, Event(b, CONNECT_ACTION, category, false));
    hide Apply, NextHandle;
  }

  /** A call on a while the link controller holds b for the active device, then b's late report. */
  lemma LateReport(y3: System, a: Address, b: Address)
    requires y3.sco == INITIAL.sco.(hasGateway := true) && a in y3.registry.connected && a != b
    ensures var i4 := SetActiveCommand(a, OBLIGING);
            var i5 := ScoStateEvent(b, SCO_CONNECTED, OtherReason(0));
            var i6 := ConnectSceneCommand(ScenePhoneCall, OBLIGING);
            var i7 := ScoStateEvent(b, SCO_DISCONNECTED, OtherReason(0));
            var y4 := NextSystem(y3, i4);
            var y5 := NextSystem(y4, i5);
            var y6 := NextSystem(y5, i6);
            var t4 := NextTrack(y3, NO_LINK, i4);
            var t5 := NextTrack(y4, t4, i5);
            var t6 := NextTrack(y5, t5, i6);
            && y4.sco == y3.sco.(active := a) && t4 == t5 == Track(a, None)
            && y6.sco == y3.sco.(active := b, scene := ScenePhoneCall)
            && NextSystem(y6, i7).sco == y3.sco.(active := DEFAULT_ADDRESS)
            && NextTrack(y6, t6, i7) == t6 == Track(a, Some(OpenLink(ScoCellular, a)))
            && y4.registry == y5.registry == y6.registry == y3.registry
  {
    hide AfterCalls, Next, NextHandle, SignalOf;
    var y4 := NextSystem(y3, SetActiveCommand(a, OBLIGING));
    var y5 := NextSystem(y4, ScoStateEvent(b, SCO_CONNECTED, OtherReason(0)));
    var y6 := NextSystem(y5, ConnectSceneCommand(ScenePhoneCall, OBLIGING));
    FewCalls(NO_LINK, [SetActiveCall(a, true)]);
    FewCalls(Track(a, None), []);
    FewCalls(Track(a, None), [ConnectCall(ScoCellular, true)]);
    FewCalls(Track(a, Some(OpenLink(ScoCellular, a))), []);
    assert Handle(y3, SetActiveCommand(a, OBLIGING)).calls == [SetActiveCall(a, true)];
    assert Handle(y5, ConnectSceneCommand(ScenePhoneCall, OBLIGING)).calls == [ConnectCall(ScoCellular, true)];
  }

  /**
   Nor is a condition on link-up reports: b's link comes up before the call is made and is reported
   lost while the call is up on a. The active device was b by then, so the scene is dropped; a's link
   stays open, cannot be closed by a command any more, and recognition is opened beside it.
   */
  lemma LateReportIsNotEnough(a: Address, b: Address, category: DeviceCategory)
    requires a != b
    ensures var i4 := SetActiveCommand(a, OBLIGING);
            var i5 := ScoStateEvent(b, SCO_CONNECTED, OtherReason(0));
            var i6 := ConnectSceneCommand(ScenePhoneCall, OBLIGING);
            var i7 := ScoStateEvent(b, SCO_DISCONNECTED, OtherReason(0));
            var y1 := NextSystem(INITIAL, RegisterCommand(true));
            var y2 := NextSystem(y1, ConnectionEvent(a, BtConnected, category, false));
            var y3 := NextSystem(y2, ConnectionEvent(b, BtConnected, category, false));
            var y4 := NextSystem(y3, i4);
            var y5 := NextSystem(y4, i5);
            var y6 := NextSystem(y5, i6);
            var y7 := NextSystem(y6, i7);
            var t4 := NextTrack(y3, NO_LINK, i4);
            var t5 := NextTrack(y4, t4, i5);
            var t6 := NextTrack(y5, t5, i6);
            && PolicyAgrees(y4, t4, i5) && PolicyAgrees(y6, t6, i7) && !Strands(y4, i5) && !Strands(y6, i7)
            && !LossAgrees(y6, t6, i7) && NextTrack(y6, t6, i7).link == Some(OpenLink(ScoCellular, a))
            && Handle(y7, DisconnectScoCommand(OBLIGING)).calls == []
            && Handle(y7, RecognitionCommand(true, a, OBLIGING)).calls == [OpenRecognitionCall(a, true)]
  {
    hide AfterCalls, Next, NextHandle, SignalOf;
    var y3 := TwoConnected(a, b, category);
    LateReport(y3, a, b);
  }

  /* The active device. */

  predicate ActiveSafe(y: System) {
    y.sco.active == DEFAULT_ADDRESS || y.sco.active in y.registry.connected
  }

  /**
   A link report naming a device that is not connected, or a disconnection of the active device that
   does not arrive as a connection event.
   */
  predicate Strands(y: System, i: Input) {
    match i
    case ScoStateEvent(d, state, _) => state == SCO_CONNECTED && d != DEFAULT_ADDRESS && d !in y.registry.connected
    case StackEvent(e) => e.action == DISCONNECT_ACTION && e.device == y.sco.active && e.device != DEFAULT_ADDRESS
    case ClearDevices => y.sco.active != DEFAULT_ADDRESS
    case _ => false
  }

  lemma ConnectedAfter(r: Registry, e: Event)
    ensures Apply(Hfp, r, e).connected ==
            if e.action == CONNECT_ACTION then r.connected + {e.device}
            else if e.action == DISCONNECT_ACTION then r.connected - {e.device}
            else r.connected
  {
  }

  /** The active device stays the default one or a connected one exactly when no input strands it. */
  lemma ActiveSafeIff(y: System, i: Input)
    requires ActiveSafe(y)
    ensures ActiveSafe(NextSystem(y, i)) <==> !Strands(y, i)
  {
    var s := RegistryStep(i);
    if s.Some? && s.value.Act? {
      ConnectedAfter(y.registry, s.value.event);
    }
    assert Handle(y, i).sco.active == y.sco.active || i.SetActiveCommand? || i.ScoStateEvent? || i.ConnectionEvent?;
  }

  lemma {:induction false} ActiveDeviceSafety(run: seq<Input>)
    requires forall k | 0 <= k < |run| :: !Strands(SystemAfter(run[..k]), run[k])
    ensures ActiveSafe(SystemAfter(run))
  {
    if run != [] {
      var before := run[..|run| - 1];
      assert forall k | 0 <= k < |before| :: before[..k] == run[..k];
      assert run[..|run| - 1] == before;
      ActiveDeviceSafety(before);
      ActiveSafeIff(SystemAfter(before), run[|run| - 1]);
    }
  }

  /**
   Making a device active succeeds exactly when the device is connected, a call link of another device
   could be closed, and the gateway agrees, which is what it is asked last. A switch then leaves no
   call scene. A failure keeps the active device, even where the link was already closed.
   */
  lemma SetActiveOutcome(y: System, d: Address, a: Answers)
    ensures var o := Handle(y, SetActiveCommand(d, a));
            && (o.success <==>
                  d in y.registry.connected && y.sco.hasGateway && a.setActive &&
                  (d == y.sco.active || CategoryOf(y.sco.scene) == ScoDefault || a.disconnectSco == 0))
            && (o.success ==> o.sco.active == d && o.calls != [] && o.calls[|o.calls| - 1] == SetActiveCall(d, true))
            && (o.success && d != y.sco.active ==> CategoryOf(o.sco.scene) == ScoDefault)
            && (!o.success ==> o.sco.active == y.sco.active)
            && (forall t: Track | LinkCategory(t) == SceneLink(y.sco) ::
                  LinkCategory(AfterCalls(t, o.calls)) == SceneLink(o.sco))
  {
    hide AfterCalls;
    var o := SetActive(y.sco, y.registry.connected, d, a);
    forall t: Track | LinkCategory(t) == SceneLink(y.sco)
      ensures LinkCategory(AfterCalls(t, o.calls)) == SceneLink(o.sco)
    {
      SetActiveAgrees(y.sco, y.registry.connected, d, a, t);
    }
  }
}
