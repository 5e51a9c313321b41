/**
 What a registered observer can rebuild from the announcements alone: which devices are connected,
 and from the last category announced for each of them, which list the device is on.
 */
module ObserverMirror {
  import opened Wrappers
  import opened BluetoothTypes
  import opened DeviceRegistry
  import opened DeviceAutomaton
  import opened RegistryInvariant

  /** The observer's book: the last announced category of every device it believes connected. */
  type Mirror = map<Address, DeviceCategory>

  function Hear(m: Mirror, n: Note): Mirror {
    match n
    case DeviceStatus(_, d, category, state, isConnected) =>
      if state == VirtualConnected then m else if isConnected then m[d := category] else m - {d}
    case CategoryUpdate(_, d, category) => m[d := category]
    case _ => m
  }

  function Replay(m: Mirror, log: seq<Note>): Mirror {
    if log == [] then m else Hear(Replay(m, log[..|log| - 1]), log[|log| - 1])
  }

  lemma {:induction false} ReplayConcat(m: Mirror, x: seq<Note>, y: seq<Note>)
    ensures Replay(m, x + y) == Replay(Replay(m, x), y)
  {
    if y == [] {
      assert x + y == x;
    } else {
      assert (x + y)[..|x + y| - 1] == x + y[..|y| - 1];
      ReplayConcat(m, x, y[..|y| - 1]);
    }
  }

  predicate PrivacyCategory(c: DeviceCategory) { c == BtHeadphone || c == BtGlasses }

  predicate NegativeCategory(c: DeviceCategory) { c == BtUnwearHeadphone || c == BtWatch }

  predicate CommonCategory(c: DeviceCategory) { c == BtSoundbox || c == BtCar }

  /** A category and the list that a connected device is on determine each other. */
  predicate CategoryTells(c: DeviceCategory, s: DeviceState) {
    && (PrivacyCategory(c) <==> s.inPrivacy)
    && (NegativeCategory(c) <==> s.inNegative)
    && (CommonCategory(c) <==> s.inCommon && !s.inPrivacy && !s.inNegative)
  }

  ghost predicate Agrees(m: Mirror, r: Registry) {
    && m.Keys == r.connected
    && forall d | d in m :: CategoryTells(m[d], Project(r, d))
  }

  function Entry(m: Mirror, d: Address): Option<DeviceCategory> {
    if d in m then Some(m[d]) else None
  }

  /** The entry of a device after an action on it, as its own automaton tells it. */
  function EntryAfter(s: DeviceState, e: Event, entry: Option<DeviceCategory>): Option<DeviceCategory> {
    if e.action == CONNECT_ACTION && !s.connected then Some(ConnectCategory(e.category, e.wearDetection))
    else if e.action == DISCONNECT_ACTION && s.connected then None
    else if IsWearAction(e.action) && s.connected then
      Some(if DeviceStep(s, e).inPrivacy then BtHeadphone else BtUnwearHeadphone)
    else entry
  }

  lemma HeardOfEvent(p: Profile, r: Registry, e: Event, m: Mirror, d: Address)
    ensures Entry(Replay(m, Announce(p, r, e)), d) ==
            if d == e.device then EntryAfter(Project(r, d), e, Entry(m, d)) else Entry(m, d)
  {
    var log := Announce(p, r, e);
    if log != [] {
      assert |log| == 1 && log[..|log| - 1] == [];
      assert Replay(m, log) == Hear(m, log[0]);
    }
  }

  /** An entry is there exactly for a connected device, and tells its list. */
  predicate EntryRight(entry: Option<DeviceCategory>, s: DeviceState) {
    (entry.Some? <==> s.connected) && (entry.Some? ==> CategoryTells(entry.value, s))
  }

  lemma EntryStaysRight(s: DeviceState, e: Event, entry: Option<DeviceCategory>)
    requires Sound(s) && EntryRight(entry, s)
    ensures EntryRight(EntryAfter(s, e, entry), DeviceStep(s, e))
  {
  }

  lemma EventKeepsEntry(p: Profile, r: Registry, e: Event, m: Mirror, d: Address)
    requires Inv(r) && EntryRight(Entry(m, d), Project(r, d))
    ensures EntryRight(Entry(Replay(m, Announce(p, r, e)), d), Project(Apply(p, r, e), d))
  {
    hide Apply, Announce, Replay, DeviceStep;
    HeardOfEvent(p, r, e, m, d);
    StepProjects(p, r, Act(e), d);
    assert Sound(Project(r, d));
    EntryStaysRight(Project(r, d), e, Entry(m, d));
  }

  lemma EventKeepsMirror(p: Profile, r: Registry, e: Event, m: Mirror)
    requires Inv(r) && Agrees(m, r)
    ensures Agrees(Replay(m, Announce(p, r, e)), Apply(p, r, e))
  {
    hide Apply, Announce, Replay, Inv, CategoryTells;
    var m', r' := Replay(m, Announce(p, r, e)), Apply(p, r, e);
    forall d ensures (d in m' <==> d in r'.connected) && (d in m' ==> CategoryTells(m'[d], Project(r', d))) {
      EventKeepsEntry(p, r, e, m, d);
    }
  }

  /** Clearing is silent, so the observer stays right exactly when nothing was connected any more. */
  lemma ClearKeepsMirrorIff(r: Registry, m: Mirror)
    requires Agrees(m, r)
    ensures Agrees(m, EMPTY) <==> r.connected == {}
  {
  }

  ghost predicate ClearsOnlyWhenDrained(p: Profile, steps: seq<Step>) {
    forall k | 0 <= k < |steps| :: steps[k].ClearAll? ==> Run(p, steps[..k]).connected == {}
  }

  /** Over every run of either manager the log rebuilds the connected devices and their lists. */
  lemma {:induction false} LogMirrorsRegistry(p: Profile, steps: seq<Step>)
    requires ClearsOnlyWhenDrained(p, steps)
    ensures Agrees(Replay(map[], Log(p, steps)), Run(p, steps))
  {
    if steps != [] {
      var before := steps[..|steps| - 1];
      assert steps[..|steps| - 1] == before;
      assert forall k | 0 <= k < |before| :: before[..k] == steps[..k];
      LogMirrorsRegistry(p, before);
      RunKeepsInv(p, before);
      var r, m := Run(p, before), Replay(map[], Log(p, before));
      match steps[|steps| - 1]
      case Act(e) =>
        ReplayConcat(map[], Log(p, before), Announce(p, r, e));
        EventKeepsMirror(p, r, e, m);
      case ClearAll =>
        assert Log(p, steps) == Log(p, before);
        ClearKeepsMirrorIff(r, m);
    }
  }

  /* Virtual devices. */

  /** The observer's book of virtual devices: added virtually, and neither removed nor really connected since. */
  function HearVirtual(v: set<Address>, n: Note): set<Address> {
    match n
    case DeviceStatus(_, d, _, state, isConnected) =>
      if state == VirtualConnected && isConnected then v + {d} else v - {d}
    case _ => v
  }

  function ReplayVirtual(v: set<Address>, log: seq<Note>): set<Address> {
    if log == [] then v else HearVirtual(ReplayVirtual(v, log[..|log| - 1]), log[|log| - 1])
  }

  lemma {:induction false} ReplayVirtualConcat(v: set<Address>, x: seq<Note>, y: seq<Note>)
    ensures ReplayVirtual(v, x + y) == ReplayVirtual(ReplayVirtual(v, x), y)
  {
    if y == [] {
      assert x + y == x;
    } else {
      assert (x + y)[..|x + y| - 1] == x + y[..|y| - 1];
      ReplayVirtualConcat(v, x, y[..|y| - 1]);
    }
  }

  /** The virtual devices of a manager: on the negative list without being connected. */
  function VirtualOf(r: Registry): set<Address> {
    set d | d in r.negative && d !in r.connected
  }

  lemma VirtualHeardOfEvent(p: Profile, r: Registry, e: Event, v: set<Address>, d: Address)
    ensures d in ReplayVirtual(v, Announce(p, r, e)) <==>
            if d != e.device || d in r.connected then
              d in v && !(d == e.device && e.action == DISCONNECT_ACTION)
            else if e.action == VIRTUAL_DEVICE_ADD_ACTION then true
            else d in v && e.action != VIRTUAL_DEVICE_REMOVE_ACTION && e.action != CONNECT_ACTION
  {
    var log := Announce(p, r, e);
    if log != [] {
      assert |log| == 1 && log[..|log| - 1] == [];
      assert ReplayVirtual(v, log) == HearVirtual(v, log[0]);
    }
  }

  /** The book of virtual devices stays right with every action. */
  lemma EventKeepsVirtual(p: Profile, r: Registry, e: Event, v: set<Address>)
    requires Inv(r) && v == VirtualOf(r)
    ensures ReplayVirtual(v, Announce(p, r, e)) == VirtualOf(Apply(p, r, e))
  {
    hide Apply, Announce, ReplayVirtual;
    var v', r' := ReplayVirtual(v, Announce(p, r, e)), Apply(p, r, e);
    forall d ensures d in v' <==> Project(r', d).inNegative && !Project(r', d).connected {
      VirtualHeardOfEvent(p, r, e, v, d);
      StepProjects(p, r, Act(e), d);
      assert d in v <==> Project(r, d).inNegative && !Project(r, d).connected;
    }
  }

  ghost predicate ClearsOnlyWithoutVirtual(p: Profile, steps: seq<Step>) {
    forall k | 0 <= k < |steps| :: steps[k].ClearAll? ==> VirtualOf(Run(p, steps[..k])) == {}
  }

  /** Over every run of either manager the log rebuilds the virtual devices. */
  lemma {:induction false} LogTellsVirtual(p: Profile, steps: seq<Step>)
    requires ClearsOnlyWithoutVirtual(p, steps)
    ensures ReplayVirtual({}, Log(p, steps)) == VirtualOf(Run(p, steps))
  {
    hide Apply, Announce, Inv;
    if steps != [] {
      var before := steps[..|steps| - 1];
      assert steps[..|steps| - 1] == before;
      assert forall k | 0 <= k < |before| :: before[..k] == steps[..k];
      LogTellsVirtual(p, before);
      RunKeepsInv(p, before);
      var r := Run(p, before);
      match steps[|steps| - 1]
      case Act(e) =>
        ReplayVirtualConcat({}, Log(p, before), Announce(p, r, e));
        EventKeepsVirtual(p, r, e, VirtualOf(r));
      case ClearAll =>
        assert Log(p, steps) == Log(p, before);
    }
  }
}
