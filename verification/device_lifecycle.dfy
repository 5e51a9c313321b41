/**
 Sequences of actions that the managers issue on their own: the teardown of all connections over a
 snapshot of them, and the pass over reported and virtual devices after the service reconnects.
 */
module DeviceLifecycle {
  import opened Wrappers
  import opened BluetoothTypes
  import opened ConfigVector
  import opened DeviceRegistry
  import opened DeviceAutomaton
  import opened RegistryInvariant
  import opened ObserverMirror

  function ApplyAll(p: Profile, r: Registry, es: seq<Event>): Registry {
    if es == [] then r else Apply(p, ApplyAll(p, r, es[..|es| - 1]), es[|es| - 1])
  }

  function AnnounceAll(p: Profile, r: Registry, es: seq<Event>): seq<Note> {
    if es == [] then []
    else
      var before := es[..|es| - 1];
      AnnounceAll(p, r, before) + Announce(p, ApplyAll(p, r, before), es[|es| - 1])
  }

  lemma HeardJoins(on: bool, log: seq<Note>, x: seq<Note>, y: seq<Note>)
    ensures log + Heard(on, x) + Heard(on, y) == log + Heard(on, x + y)
  {
  }

  lemma ApplyAllSnoc(p: Profile, r: Registry, es: seq<Event>, e: Event)
    ensures ApplyAll(p, r, es + [e]) == Apply(p, ApplyAll(p, r, es), e)
    ensures AnnounceAll(p, r, es + [e]) == AnnounceAll(p, r, es) + Announce(p, ApplyAll(p, r, es), e)
  {
    hide Apply, Announce;
    assert (es + [e])[..|es|] == es;
  }

  lemma ApplyOne(p: Profile, r: Registry, e: Event)
    ensures ApplyAll(p, r, [e]) == Apply(p, r, e)
    ensures AnnounceAll(p, r, [e]) == Announce(p, r, e)
  {
    hide Apply, Announce;
    assert [e][..0] == [];
  }

  lemma {:induction false} ApplyAllKeepsInv(p: Profile, r: Registry, es: seq<Event>)
    requires Inv(r)
    ensures Inv(ApplyAll(p, r, es))
  {
    if es != [] {
      ApplyAllKeepsInv(p, r, es[..|es| - 1]);
      StepKeepsInv(p, ApplyAll(p, r, es[..|es| - 1]), Act(es[|es| - 1]));
    }
  }

  /* Teardown. */

  function DisconnectEvent(d: Address): Event {
    Event(d, DISCONNECT_ACTION, CategoryDefault, false)
  }

  function Disconnections(list: seq<Address>): seq<Event> {
    seq(|list|, k requires 0 <= k < |list| => DisconnectEvent(list[k]))
  }

  lemma NoDisconnections(p: Profile, r: Registry, list: seq<Address>)
    ensures ApplyAll(p, r, Disconnections(list[..0])) == r && AnnounceAll(p, r, Disconnections(list[..0])) == []
  {
  }

  lemma DisconnectionsSnoc(p: Profile, r: Registry, list: seq<Address>, k: nat, on: bool, log: seq<Note>)
    requires k < |list|
    ensures Disconnections(list[..k + 1]) == Disconnections(list[..k]) + [DisconnectEvent(list[k])]
    ensures var es := Disconnections(list[..k]);
            && ApplyAll(p, r, Disconnections(list[..k + 1])) == Apply(p, ApplyAll(p, r, es), DisconnectEvent(list[k]))
            && log + Heard(on, AnnounceAll(p, r, es)) +
                 Heard(on, Announce(p, ApplyAll(p, r, es), DisconnectEvent(list[k]))) ==
                 log + Heard(on, AnnounceAll(p, r, Disconnections(list[..k + 1])))
  {
    hide Apply, Announce;
    var es := Disconnections(list[..k]);
    assert Disconnections(list[..k + 1]) == es + [DisconnectEvent(list[k])];
    ApplyAllSnoc(p, r, es, DisconnectEvent(list[k]));
    HeardJoins(on, log, AnnounceAll(p, r, es), Announce(p, ApplyAll(p, r, es), DisconnectEvent(list[k])));
  }

  /** One removal for each device, in the order of the list. */
  function Removals(p: Profile, list: seq<Address>): seq<Note> {
    seq(|list|, k requires 0 <= k < |list| => DeviceStatus(p, list[k], CategoryDefault, LinkState(p), false))
  }

  ghost predicate ListsConnected(r: Registry, list: seq<Address>) {
    NoDuplicates(list) && forall d :: d in list <==> d in r.connected
  }

  /** r' is r without anything of the listed devices. */
  ghost predicate Without(r: Registry, r': Registry, list: seq<Address>) {
    forall a :: Project(r', a) == if a in list then ABSENT else Project(r, a)
  }

  lemma DisconnectOne(p: Profile, r: Registry, d: Address)
    requires Inv(r) && Project(r, d).connected
    ensures var r' := Apply(p, r, DisconnectEvent(d)); Inv(r') && Without(r, r', [d])
    ensures Announce(p, r, DisconnectEvent(d)) == [DeviceStatus(p, d, CategoryDefault, LinkState(p), false)]
  {
    StepKeepsInv(p, r, Act(DisconnectEvent(d)));
    forall a ensures Project(Apply(p, r, DisconnectEvent(d)), a) == if a in [d] then ABSENT else Project(r, a) {
      StepProjects(p, r, Act(DisconnectEvent(d)), a);
    }
  }

  lemma WithoutMore(r: Registry, r1: Registry, r2: Registry, list: seq<Address>, d: Address)
    requires Without(r, r1, list) && Without(r1, r2, [d])
    ensures Without(r, r2, list + [d])
  {
  }

  lemma {:induction false} Drain(p: Profile, r: Registry, list: seq<Address>)
    requires Inv(r) && NoDuplicates(list)
    requires forall d | d in list :: Project(r, d).connected
    ensures var r' := ApplyAll(p, r, Disconnections(list)); Inv(r') && Without(r, r', list)
    ensures AnnounceAll(p, r, Disconnections(list)) == Removals(p, list)
  {
    hide Apply, Announce, Inv;
    if list != [] {
      var before, d := list[..|list| - 1], list[|list| - 1];
      assert list == before + [d];
      var es := Disconnections(before);
      var r1 := ApplyAll(p, r, es);
      Drain(p, r, before);
      assert Disconnections(list) == es + [DisconnectEvent(d)];
      assert Removals(p, list) == Removals(p, before) + [DeviceStatus(p, d, CategoryDefault, LinkState(p), false)];
      ApplyAllSnoc(p, r, es, DisconnectEvent(d));
      assert Project(r1, d) == Project(r, d);
      DisconnectOne(p, r1, d);
      WithoutMore(r, r1, Apply(p, r1, DisconnectEvent(d)), before, d);
    }
  }

  lemma EmptyOrInhabited(v: seq<Address>)
    ensures v == [] || exists a :: a in v
  {
    if v != [] {
      assert v[0] in v;
    }
  }

  /**
   Disconnecting a snapshot of the connected devices announces exactly one removal for each and leaves
   only the virtual devices of the negative list to the final clearing.
   */
  lemma TeardownDrains(p: Profile, r: Registry, list: seq<Address>)
    requires Inv(r) && ListsConnected(r, list)
    ensures var r' := ApplyAll(p, r, Disconnections(list));
            && AnnounceAll(p, r, Disconnections(list)) == Removals(p, list)
            && r'.connected == {} && r'.wear == map[] && r'.privacy == [] && r'.common == []
            && (forall a :: a in r'.negative <==> a in r.negative && a !in r.connected)
  {
    Drain(p, r, list);
    var r' := ApplyAll(p, r, Disconnections(list));
    forall a ensures !Project(r', a).connected && Project(r', a).wear == None
             ensures !Project(r', a).inPrivacy && !Project(r', a).inCommon
             ensures Project(r', a).inNegative == (a in r.negative && a !in r.connected)
    {
      assert Sound(Project(r, a));
    }
    assert forall a :: Project(r', a).connected == (a in r'.connected);
    assert forall a :: Project(r', a).wear.Some? == (a in r'.wear);
    assert forall a :: Project(r', a).inPrivacy == (a in r'.privacy);
    assert forall a :: Project(r', a).inCommon == (a in r'.common);
    assert forall a :: Project(r', a).inNegative == (a in r'.negative);
    assert forall a :: a !in r'.privacy && a !in r'.common && a !in r'.wear;
    EmptyOrInhabited(r'.privacy);
    EmptyOrInhabited(r'.common);
  }

  lemma {:induction false} EventsKeepMirror(p: Profile, r: Registry, es: seq<Event>, m: Mirror)
    requires Inv(r) && Agrees(m, r)
    ensures Agrees(Replay(m, AnnounceAll(p, r, es)), ApplyAll(p, r, es))
  {
    if es != [] {
      var before := es[..|es| - 1];
      EventsKeepMirror(p, r, before, m);
      ApplyAllKeepsInv(p, r, before);
      var r1 := ApplyAll(p, r, before);
      ReplayConcat(m, AnnounceAll(p, r, before), Announce(p, r1, es[|es| - 1]));
      EventKeepsMirror(p, r1, es[|es| - 1], Replay(m, AnnounceAll(p, r, before)));
    }
  }

  /** The observer hears enough of a teardown to know, without hearing of the clearing, that all is empty. */
  lemma TeardownKeepsMirror(p: Profile, r: Registry, list: seq<Address>, m: Mirror)
    requires Inv(r) && ListsConnected(r, list) && Agrees(m, r)
    ensures Replay(m, AnnounceAll(p, r, Disconnections(list))) == map[]
    ensures Agrees(Replay(m, AnnounceAll(p, r, Disconnections(list))), EMPTY)
  {
    EventsKeepMirror(p, r, Disconnections(list), m);
    TeardownDrains(p, r, list);
  }

  lemma {:induction false} RemovalsLeaveVirtual(p: Profile, list: seq<Address>, v: set<Address>)
    requires forall d | d in list :: d !in v
    ensures ReplayVirtual(v, Removals(p, list)) == v
  {
    if list != [] {
      var before, d := list[..|list| - 1], list[|list| - 1];
      assert list == before + [d];
      var n := DeviceStatus(p, d, CategoryDefault, LinkState(p), false);
      assert Removals(p, list) == Removals(p, before) + [n];
      RemovalsLeaveVirtual(p, before, v);
      assert (Removals(p, before) + [n])[..|before|] == Removals(p, before);
    }
  }

  /**
   The teardown tells the observer of no virtual device that it drops, so the observer's book of them
   is right afterwards exactly when there was none.
   */
  lemma TeardownKeepsVirtualIff(p: Profile, r: Registry, list: seq<Address>)
    requires Inv(r) && ListsConnected(r, list)
    ensures var v := ReplayVirtual(VirtualOf(r), AnnounceAll(p, r, Disconnections(list)));
            v == VirtualOf(r) && (v == VirtualOf(EMPTY) <==> VirtualOf(r) == {})
  {
    TeardownDrains(p, r, list);
    RemovalsLeaveVirtual(p, list, VirtualOf(r));
  }

  /* Reconnection. */

  /** What the remote devices and the audio service answer about each address. */
  datatype Survey = Survey(
    category: Address -> DeviceCategory, wearDetection: Address -> bool, wearing: Address -> int)

  function EventFor(q: Survey, d: Address, action: int): Event {
    Event(d, action, q.category(d), q.wearDetection(d))
  }

  /** A connected device that detects wearing and is worn is reported worn. */
  function WornEvents(q: Survey, d: Address): seq<Event> {
    if q.wearDetection(d) && q.wearing(d) == 1 then [EventFor(q, d, WEAR_ACTION)] else []
  }

  function ReconnectEvents(q: Survey, d: Address): seq<Event> {
    [EventFor(q, d, CONNECT_ACTION)] + WornEvents(q, d)
  }

  function ReportedEvents(q: Survey, reported: seq<Address>): seq<Event> {
    if reported == [] then []
    else ReportedEvents(q, reported[..|reported| - 1]) + ReconnectEvents(q, reported[|reported| - 1])
  }

  function VirtualEvents(q: Survey, virtuals: seq<Address>): seq<Event> {
    if virtuals == [] then []
    else
      VirtualEvents(q, virtuals[..|virtuals| - 1]) +
      [EventFor(q, virtuals[|virtuals| - 1], VIRTUAL_DEVICE_ADD_ACTION)]
  }

  /** One pass: reported devices first, then virtual ones. */
  function PassEvents(q: Survey, reported: seq<Address>, virtuals: seq<Address>): seq<Event> {
    ReportedEvents(q, reported) + VirtualEvents(q, virtuals)
  }

  lemma {:induction false} ApplyAllConcat(p: Profile, r: Registry, x: seq<Event>, y: seq<Event>)
    ensures ApplyAll(p, r, x + y) == ApplyAll(p, ApplyAll(p, r, x), y)
    ensures AnnounceAll(p, r, x + y) == AnnounceAll(p, r, x) + AnnounceAll(p, ApplyAll(p, r, x), y)
  {
    hide Apply, Announce;
    if y == [] {
      assert x + y == x;
    } else {
      var before := y[..|y| - 1];
      assert (x + y)[..|x + y| - 1] == x + before;
      ApplyAllConcat(p, r, x, before);
    }
  }

  /** A pass connects, wears what it has just connected, and adds virtual devices. */
  ghost predicate PassShaped(es: seq<Event>) {
    forall k | 0 <= k < |es| ::
      || es[k].action == CONNECT_ACTION
      || es[k].action == VIRTUAL_DEVICE_ADD_ACTION
      || (es[k].action == WEAR_ACTION && k > 0 && es[k - 1].action == CONNECT_ACTION &&
          es[k - 1].device == es[k].device)
  }

  lemma VirtualsSnoc(p: Profile, r: Registry, q: Survey, virtuals: seq<Address>, k: nat,
                     on: bool, log: seq<Note>)
    requires k < |virtuals|
    ensures var es, e := VirtualEvents(q, virtuals[..k]), EventFor(q, virtuals[k], VIRTUAL_DEVICE_ADD_ACTION);
            && ApplyAll(p, r, VirtualEvents(q, virtuals[..k + 1])) == Apply(p, ApplyAll(p, r, es), e)
            && log + Heard(on, AnnounceAll(p, r, es)) + Heard(on, Announce(p, ApplyAll(p, r, es), e)) ==
                 log + Heard(on, AnnounceAll(p, r, VirtualEvents(q, virtuals[..k + 1])))
  {
    hide Apply, Announce;
    assert virtuals[..k + 1][..k] == virtuals[..k];
    var es, e := VirtualEvents(q, virtuals[..k]), EventFor(q, virtuals[k], VIRTUAL_DEVICE_ADD_ACTION);
    ApplyAllSnoc(p, r, es, e);
    HeardJoins(on, log, AnnounceAll(p, r, es), Announce(p, ApplyAll(p, r, es), e));
  }

  lemma ReportedSnoc(p: Profile, r: Registry, q: Survey, reported: seq<Address>, k: nat,
                     on: bool, log: seq<Note>)
    requires k < |reported|
    ensures var es, more := ReportedEvents(q, reported[..k]), ReconnectEvents(q, reported[k]);
            && ApplyAll(p, r, ReportedEvents(q, reported[..k + 1])) == ApplyAll(p, ApplyAll(p, r, es), more)
            && log + Heard(on, AnnounceAll(p, r, es)) + Heard(on, AnnounceAll(p, ApplyAll(p, r, es), more)) ==
                 log + Heard(on, AnnounceAll(p, r, ReportedEvents(q, reported[..k + 1])))
  {
    hide Apply, Announce, ReconnectEvents;
    assert reported[..k + 1][..k] == reported[..k];
    var es, more := ReportedEvents(q, reported[..k]), ReconnectEvents(q, reported[k]);
    ApplyAllConcat(p, r, es, more);
    HeardJoins(on, log, AnnounceAll(p, r, es), AnnounceAll(p, ApplyAll(p, r, es), more));
  }

  lemma ShapedConcat(x: seq<Event>, y: seq<Event>)
    requires PassShaped(x) && PassShaped(y)
    ensures PassShaped(x + y)
  {
    forall k | |x| <= k < |x + y|
      ensures (x + y)[k].action == WEAR_ACTION ==> k > |x| && (x + y)[k - 1] == y[k - 1 - |x|]
      ensures (x + y)[k] == y[k - |x|]
    {
    }
  }

  lemma {:induction false} ReportedAreShaped(q: Survey, reported: seq<Address>)
    ensures PassShaped(ReportedEvents(q, reported))
    ensures forall d | d in reported :: EventFor(q, d, CONNECT_ACTION) in ReportedEvents(q, reported)
  {
    if reported != [] {
      var before, d := reported[..|reported| - 1], reported[|reported| - 1];
      ReportedAreShaped(q, before);
      assert reported == before + [d];
      ShapedConcat(ReportedEvents(q, before), ReconnectEvents(q, d));
    }
  }

  lemma {:induction false} VirtualsAreShaped(q: Survey, virtuals: seq<Address>)
    ensures forall e | e in VirtualEvents(q, virtuals) :: e.action == VIRTUAL_DEVICE_ADD_ACTION
    ensures forall d | d in virtuals :: EventFor(q, d, VIRTUAL_DEVICE_ADD_ACTION) in VirtualEvents(q, virtuals)
  {
    if virtuals != [] {
      VirtualsAreShaped(q, virtuals[..|virtuals| - 1]);
      assert virtuals == virtuals[..|virtuals| - 1] + [virtuals[|virtuals| - 1]];
    }
  }

  lemma PassIsShaped(q: Survey, reported: seq<Address>, virtuals: seq<Address>)
    ensures PassShaped(PassEvents(q, reported, virtuals))
    ensures forall d | d in reported :: EventFor(q, d, CONNECT_ACTION) in PassEvents(q, reported, virtuals)
    ensures forall d | d in virtuals :: EventFor(q, d, VIRTUAL_DEVICE_ADD_ACTION) in PassEvents(q, reported, virtuals)
  {
    ReportedAreShaped(q, reported);
    VirtualsAreShaped(q, virtuals);
    var x, y := ReportedEvents(q, reported), VirtualEvents(q, virtuals);
    assert forall k | 0 <= k < |y| :: y[k] in y;
    ShapedConcat(x, y);
  }

  /** What an event of a pass wants of its device. */
  predicate Done(s: DeviceState, e: Event) {
    if e.action == CONNECT_ACTION then s.connected
    else if e.action == WEAR_ACTION then s.connected && s.wear == Some(Wear)
    else s.connected || s.inNegative
  }

  ghost predicate AllDone(r: Registry, es: seq<Event>) {
    forall k | 0 <= k < |es| :: Done(Project(r, es[k].device), es[k])
  }

  predicate PassAction(action: int) {
    action == CONNECT_ACTION || action == WEAR_ACTION || action == VIRTUAL_DEVICE_ADD_ACTION
  }

  /** What is done stays done through a pass; an event does what it wants, wearing when connected. */
  lemma DoneStays(p: Profile, r: Registry, e: Event, e': Event)
    requires Inv(r) && PassAction(e.action) && PassAction(e'.action)
    ensures var s' := Project(Apply(p, r, e'), e.device);
            Done(Project(r, e.device), e) || (e == e' && (e.action == WEAR_ACTION ==> Project(r, e.device).connected))
            ==> Done(s', e)
  {
    StepProjects(p, r, Act(e'), e.device);
  }

  lemma {:induction false} PassSettles(p: Profile, r: Registry, es: seq<Event>)
    requires Inv(r) && PassShaped(es)
    ensures AllDone(ApplyAll(p, r, es), es)
  {
    hide Apply, Announce;
    if es != [] {
      var n := |es| - 1;
      PassSettles(p, r, es[..n]);
      ApplyAllKeepsInv(p, r, es[..n]);
      var r1 := ApplyAll(p, r, es[..n]);
      assert forall k | 0 <= k < n :: es[..n][k] == es[k] && Done(Project(r1, es[..n][k].device), es[..n][k]);
      assert n > 0 ==> Done(Project(r1, es[n - 1].device), es[n - 1]);
      forall k | 0 <= k < |es| ensures Done(Project(ApplyAll(p, r, es), es[k].device), es[k]) {
        DoneStays(p, r1, es[k], es[n]);
      }
    }
  }

  predicate SameDevices(r: Registry, r': Registry, a: Address) {
    Project(r, a) == Project(r', a)
  }

  predicate RealAdd(n: Note) {
    n.DeviceStatus? && n.isConnected && n.state != VirtualConnected
  }

  lemma DoneEventIsQuiet(p: Profile, r: Registry, e: Event)
    requires Inv(r) && Done(Project(r, e.device), e)
    requires PassAction(e.action)
    ensures forall a :: SameDevices(r, Apply(p, r, e), a)
    ensures forall n | n in Announce(p, r, e) :: !RealAdd(n)
  {
    assert Sound(Project(r, e.device));
    forall a ensures SameDevices(r, Apply(p, r, e), a) {
      StepProjects(p, r, Act(e), a);
    }
  }

  lemma {:induction false} SettledPassIsQuiet(p: Profile, r: Registry, es: seq<Event>)
    requires Inv(r) && PassShaped(es) && AllDone(r, es)
    ensures forall a :: SameDevices(r, ApplyAll(p, r, es), a)
    ensures forall n | n in AnnounceAll(p, r, es) :: !RealAdd(n)
  {
    hide Apply, Announce;
    if es != [] {
      var n := |es| - 1;
      assert forall k | 0 <= k < n :: Done(Project(r, es[..n][k].device), es[k]);
      SettledPassIsQuiet(p, r, es[..n]);
      ApplyAllKeepsInv(p, r, es[..n]);
      assert SameDevices(r, ApplyAll(p, r, es[..n]), es[n].device);
      DoneEventIsQuiet(p, ApplyAll(p, r, es[..n]), es[n]);
      forall a ensures SameDevices(r, ApplyAll(p, r, es), a) {
        assert SameDevices(r, ApplyAll(p, r, es[..n]), a);
        assert SameDevices(ApplyAll(p, r, es[..n]), Apply(p, ApplyAll(p, r, es[..n]), es[n]), a);
      }
    }
  }

  /* What a pass comes to for each device. */

  /** A reported device on its own: connected, then worn if it says so. */
  function Reconnected(q: Survey, d: Address, s: DeviceState): DeviceState {
    var s' := DeviceStep(s, EventFor(q, d, CONNECT_ACTION));
    if q.wearDetection(d) && q.wearing(d) == 1 then DeviceStep(s', EventFor(q, d, WEAR_ACTION)) else s'
  }

  lemma ReconnectedOnce(p: Profile, r: Registry, q: Survey, x: Address, d: Address)
    requires Inv(r)
    ensures var r' := ApplyAll(p, r, ReconnectEvents(q, x));
            Inv(r') && Project(r', d) == if d == x then Reconnected(q, d, Project(r, d)) else Project(r, d)
  {
    hide Apply, Announce, Inv, DeviceStep;
    var c, w := EventFor(q, x, CONNECT_ACTION), EventFor(q, x, WEAR_ACTION);
    ApplyAllKeepsInv(p, r, ReconnectEvents(q, x));
    ApplyAllKeepsInv(p, r, [c]);
    InvIsDistinct(r);
    InvIsDistinct(ApplyAll(p, r, [c]));
    ApplyOne(p, r, c);
    StepProjects(p, r, Act(c), d);
    ApplyAllConcat(p, r, [c], WornEvents(q, x));
    ApplyOne(p, Apply(p, r, c), w);
    StepProjects(p, Apply(p, r, c), Act(w), d);
  }

  lemma ReconnectedTwice(q: Survey, d: Address, s: DeviceState)
    ensures Reconnected(q, d, Reconnected(q, d, s)) == Reconnected(q, d, s)
  {
  }

  lemma {:induction false} ReportedAt(p: Profile, r: Registry, q: Survey, reported: seq<Address>, d: Address)
    requires Inv(r)
    ensures var r' := ApplyAll(p, r, ReportedEvents(q, reported));
            Inv(r') && Project(r', d) == if d in reported then Reconnected(q, d, Project(r, d)) else Project(r, d)
  {
    hide Apply, Announce, Inv, Project, Reconnected, ReconnectEvents;
    if reported != [] {
      var before, x := reported[..|reported| - 1], reported[|reported| - 1];
      assert reported == before + [x];
      ReconnectedTwice(q, d, Project(r, d));
      ReportedAt(p, r, q, before, d);
      ApplyAllConcat(p, r, ReportedEvents(q, before), ReconnectEvents(q, x));
      ReconnectedOnce(p, ApplyAll(p, r, ReportedEvents(q, before)), q, x, d);
    }
  }

  lemma {:induction false} VirtualsAt(p: Profile, r: Registry, q: Survey, virtuals: seq<Address>, d: Address)
    requires Inv(r)
    ensures var s := Project(r, d);
            Project(ApplyAll(p, r, VirtualEvents(q, virtuals)), d) ==
            s.(inNegative := s.inNegative || (d in virtuals && !s.connected))
  {
    hide Apply, Announce, Inv;
    if virtuals != [] {
      var before, x := virtuals[..|virtuals| - 1], virtuals[|virtuals| - 1];
      assert virtuals == before + [x];
      var es, e := VirtualEvents(q, before), EventFor(q, x, VIRTUAL_DEVICE_ADD_ACTION);
      VirtualsAt(p, r, q, before, d);
      ApplyAllSnoc(p, r, es, e);
      ApplyAllKeepsInv(p, r, es);
      InvIsDistinct(ApplyAll(p, r, es));
      StepProjects(p, ApplyAll(p, r, es), Act(e), d);
    }
  }

  /**
   One pass, seen at any device, told from the answers alone. A reported device is connected; one that
   says it is worn is recorded so and on the privacy list; one that was connected already and does not
   say so is left alone. A new one that does not say so is on the list of its category. An unreported
   device at most becomes a virtual one.
   */
  lemma PassOutcome(p: Profile, r: Registry, q: Survey, reported: seq<Address>, virtuals: seq<Address>, d: Address)
    requires Inv(r)
    ensures var s, s' := Project(r, d), Project(ApplyAll(p, r, PassEvents(q, reported, virtuals)), d);
            var worn, c := d in reported && q.wearDetection(d) && q.wearing(d) == 1, q.category(d);
            && (s'.connected <==> s.connected || d in reported)
            && s'.wear == (if worn then Some(Wear) else s.wear)
            && (worn ==> s'.inPrivacy && !s'.inNegative)
            && (s.connected ==> s'.inCommon == s.inCommon && (!worn ==> s' == s))
            && (!s.connected && d in reported ==>
                  && (s'.inCommon <==> c == BtSoundbox || c == BtCar)
                  && (!worn ==>
                        && (s'.inNegative <==> c == BtWatch || (c == BtHeadphone && q.wearDetection(d)))
                        && (s'.inPrivacy <==> !s'.inNegative && !s'.inCommon)))
            && (!s.connected && d !in reported ==> s' == s.(inNegative := s.inNegative || d in virtuals))
  {
    hide Apply, Announce, ReportedEvents, VirtualEvents;
    ApplyAllConcat(p, r, ReportedEvents(q, reported), VirtualEvents(q, virtuals));
    ReportedAt(p, r, q, reported, d);
    VirtualsAt(p, ApplyAll(p, r, ReportedEvents(q, reported)), q, virtuals, d);
    assert Sound(Project(r, d));
  }

  /**
   Reconnecting twice with unchanged answers is reconnecting once: the same devices are connected, on
   the same lists, with the same wear records, and the second pass announces no real addition.
   Afterwards every reported device is connected and every unconnected virtual one is negative; exactly
   the reported devices that say they are worn have got a record of it, and are on the privacy list.
   */
  lemma ReconnectIsIdempotent(p: Profile, r: Registry, q: Survey, reported: seq<Address>, virtuals: seq<Address>)
    requires Inv(r)
    ensures var es := PassEvents(q, reported, virtuals);
            var once := ApplyAll(p, r, es);
            var twice := ApplyAll(p, once, es);
            && (forall a :: SameDevices(once, twice, a))
            && (forall n | n in AnnounceAll(p, once, es) :: !RealAdd(n))
            && (forall d | d in reported :: d in once.connected)
            && (forall d | d in virtuals && d !in once.connected :: d in once.negative)
            && (forall d | d in reported && q.wearDetection(d) && q.wearing(d) == 1 ::
                  d in once.privacy && d in once.wear && once.wear[d] == Wear)
            && (forall d | !(d in reported && q.wearDetection(d) && q.wearing(d) == 1) ::
                  Project(once, d).wear == Project(r, d).wear)
  {
    var es := PassEvents(q, reported, virtuals);
    forall d
      ensures var s' := Project(ApplyAll(p, r, es), d);
              if d in reported && q.wearDetection(d) && q.wearing(d) == 1 then s'.inPrivacy && s'.wear == Some(Wear)
              else s'.wear == Project(r, d).wear
    {
      PassOutcome(p, r, q, reported, virtuals, d);
    }
    PassIsShaped(q, reported, virtuals);
    PassSettles(p, r, es);
    ApplyAllKeepsInv(p, r, es);
    SettledPassIsQuiet(p, ApplyAll(p, r, es), es);
    forall e | e in es ensures Done(Project(ApplyAll(p, r, es), e.device), e) {
      var k :| 0 <= k < |es| && es[k] == e;
    }
    forall d | d in reported ensures d in ApplyAll(p, r, es).connected {
      assert EventFor(q, d, CONNECT_ACTION) in es;
    }
    forall d | d in virtuals ensures Done(Project(ApplyAll(p, r, es), d), EventFor(q, d, VIRTUAL_DEVICE_ADD_ACTION)) {
      assert EventFor(q, d, VIRTUAL_DEVICE_ADD_ACTION) in es;
    }
  }
}
