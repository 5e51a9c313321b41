/**
 Deadlock freedom of the mutexes of the Bluetooth client. Every handler takes its locks in scopes, so
 a handler is a sequence of nested blocks; all nesting climbs one global order; and any number of
 threads running any handlers in any interleaving can always go on while work remains.

 Blocks transcribes the lock scopes of the handlers, branch by branch, from
 frameworks/native/bluetoothclient/bluetooth_device_manager.cpp:85-943 and audio_bluetooth_manager.cpp:101-606;
 the models of those handlers elsewhere in this project have no locks that it could be checked against.
 */
module LockOrder {
  import opened BluetoothTypes

  datatype Lock =
    | A2dpInstanceLock
    | DeviceMapLock(profile: Profile)
    | WearStateMapLock(profile: Profile)
    | DeviceLock(profile: Profile)
    | ActiveHfpDeviceLock
    | AudioSceneLock
    | HfpInstanceLock
    | StopVirtualCallHandleLock
    | PlayingStateChangedLock
    | ObserverLock

  function Rank(l: Lock): nat {
    match l
    case A2dpInstanceLock => 0
    case ActiveHfpDeviceLock => 1
    case AudioSceneLock => 2
    case HfpInstanceLock => 3
    case DeviceMapLock(p) => 4
    case WearStateMapLock(p) => 5
    case DeviceLock(p) => 6
    case StopVirtualCallHandleLock => 7
    case PlayingStateChangedLock => 8
    case ObserverLock => 9
  }

  /** A scope that holds a lock, with the scopes opened inside it, in order. */
  datatype Block = Block(lock: Lock, inner: seq<Block>)

  /** Every lock is taken above whatever is held around it. */
  predicate Climbs(bs: seq<Block>, floor: int) {
    forall i | 0 <= i < |bs| :: Rank(bs[i].lock) > floor && Climbs(bs[i].inner, Rank(bs[i].lock))
  }

  /* The handlers. */

  /** What a thread may run; the flags say which branch it takes. */
  datatype Activity =
    | Connect(p: Profile, known: bool)
    | Disconnect(p: Profile, known: bool)
    | WearOrUnwear(p: Profile, known: bool)
    | EnableOrDisable(p: Profile, known: bool)
    | WearEnable(p: Profile, known: bool)
    | WearDisable(p: Profile, known: bool)
    | UserSelection(p: Profile, isWatch: bool)
    | StopVirtualCall
    | VirtualAddOrRemove(p: Profile, known: bool)
    | LookUpDevice(p: Profile)
    | ClearAll(p: Profile)
    | ObserverOnly
    | PlayingState
    | A2dpInstanceOnly
    | SetActiveA2dp(named: bool)
    | HfpInstanceOnly
    | SetActiveHfp(known: bool, changed: bool, linked: bool, closed: bool)
    | ConnectScoWithScene(recognition: bool, changed: bool)
    | DisconnectSco(linked: bool)
    | HfpScoState(isConnected: bool, wasActive: bool, newScene: bool)
    | HfpConnectionLost(wasActive: bool)

  /** Scopes one after the other, none inside another. */
  function Flat(ls: seq<Lock>): seq<Block> {
    seq(|ls|, i requires 0 <= i < |ls| => Block(ls[i], []))
  }

  function ScoBlock(linked: bool): Block {
    Block(AudioSceneLock, Flat(if linked then [HfpInstanceLock] else []))
  }

  function Blocks(a: Activity): seq<Block> {
    match a
    case Connect(p, known) =>
      var m, d := DeviceMapLock(p), DeviceLock(p);
      Flat(if known then [m] else [m, d, d, m, ObserverLock])
    case Disconnect(p, known) =>
      var m, d := DeviceMapLock(p), DeviceLock(p);
      Flat(if !known then [m] else [m, d, d, d, WearStateMapLock(p), m, ObserverLock])
    case WearOrUnwear(p, known) =>
      var m, d := DeviceMapLock(p), DeviceLock(p);
      Flat(if !known then [m] else [m, d, d, d, WearStateMapLock(p), ObserverLock])
    case EnableOrDisable(p, known) =>
      Flat(if !known then [DeviceMapLock(p)] else [DeviceMapLock(p), ObserverLock])
    case WearEnable(p, known) =>
      var m, d := DeviceMapLock(p), DeviceLock(p);
      if !known then Flat([m])
      else Flat([m, d, d]) + [Block(WearStateMapLock(p), Flat([d, ObserverLock]))]
    case WearDisable(p, known) =>
      var m, d := DeviceMapLock(p), DeviceLock(p);
      Flat(if !known then [m] else [m, d, d, d, ObserverLock])
    case UserSelection(p, isWatch) =>
      if p == Hfp && isWatch then [Block(WearStateMapLock(Hfp), Flat([DeviceLock(Hfp)]))] + Flat([ObserverLock])
      else Flat([ObserverLock])
    case StopVirtualCall => Flat([StopVirtualCallHandleLock])
    case VirtualAddOrRemove(p, known) =>
      Flat(if known then [DeviceMapLock(p)] else [DeviceMapLock(p), DeviceLock(p), ObserverLock])
    case LookUpDevice(p) => Flat([DeviceMapLock(p)])
    case ClearAll(p) => Flat([DeviceLock(p)]) + [Block(DeviceMapLock(p), Flat([WearStateMapLock(p)]))]
    case ObserverOnly => Flat([ObserverLock])
    case PlayingState => Flat([PlayingStateChangedLock])
    case A2dpInstanceOnly => Flat([A2dpInstanceLock])
    case SetActiveA2dp(named) => [Block(A2dpInstanceLock, Flat(if named then [DeviceMapLock(A2dp)] else []))]
    case HfpInstanceOnly => Flat([HfpInstanceLock])
    case SetActiveHfp(known, changed, linked, closed) =>
      var m := Flat([DeviceMapLock(Hfp)]);
      if !known then m
      else if !changed then m + [Block(ActiveHfpDeviceLock, Flat([HfpInstanceLock]))]
      else if !closed then m + [Block(ActiveHfpDeviceLock, [ScoBlock(linked)])]
      else m + [Block(ActiveHfpDeviceLock, [ScoBlock(linked)] + Flat([HfpInstanceLock]))]
    case ConnectScoWithScene(recognition, changed) => if recognition then [] else [ScoBlock(changed)]
    case DisconnectSco(linked) => [ScoBlock(linked)]
    case HfpScoState(isConnected, wasActive, newScene) =>
      var active, scene := ActiveHfpDeviceLock, AudioSceneLock;
      Flat(if isConnected then
             if newScene then [active, scene, scene, active, ObserverLock] else [active, scene, active, ObserverLock]
           else if wasActive then [active, active, scene, StopVirtualCallHandleLock, ObserverLock]
           else [active, StopVirtualCallHandleLock, ObserverLock])
    case HfpConnectionLost(wasActive) =>
      var active := ActiveHfpDeviceLock;
      Flat(if wasActive then [active, active, AudioSceneLock] else [active])
  }

  lemma FlatClimbs(ls: seq<Lock>, floor: int)
    requires forall i | 0 <= i < |ls| :: Rank(ls[i]) > floor
    ensures Climbs(Flat(ls), floor)
  {
  }

  lemma BlockClimbs(l: Lock, inner: seq<Block>, floor: int)
    requires Rank(l) > floor && Climbs(inner, Rank(l))
    ensures Climbs([Block(l, inner)], floor)
  {
  }

  lemma ConcatClimbs(x: seq<Block>, y: seq<Block>, floor: int)
    requires Climbs(x, floor) && Climbs(y, floor)
    ensures Climbs(x + y, floor)
  {
  }

  lemma ScoClimbs(linked: bool, floor: int)
    requires floor < Rank(AudioSceneLock)
    ensures Climbs([ScoBlock(linked)], floor)
  {
    var inner := if linked then [HfpInstanceLock] else [];
    FlatClimbs(inner, Rank(AudioSceneLock));
    BlockClimbs(AudioSceneLock, Flat(inner), floor);
  }

  lemma SetActiveHfpClimbs(known: bool, changed: bool, linked: bool, closed: bool)
    ensures Climbs(Blocks(SetActiveHfp(known, changed, linked, closed)), -1)
  {
    hide Climbs;
    FlatClimbs([DeviceMapLock(Hfp)], -1);
    var x, y := [ScoBlock(linked)], Flat([HfpInstanceLock]);
    var r := Rank(ActiveHfpDeviceLock);
    ScoClimbs(linked, r);
    FlatClimbs([HfpInstanceLock], r);
    ConcatClimbs(x, y, r);
    var inner := if !changed then y else if !closed then x else x + y;
    BlockClimbs(ActiveHfpDeviceLock, inner, -1);
    ConcatClimbs(Flat([DeviceMapLock(Hfp)]), [Block(ActiveHfpDeviceLock, inner)], -1);
  }

  lemma ActivityClimbs(a: Activity)
    ensures Climbs(Blocks(a), -1)
  {
    hide Climbs;
    forall ls: seq<Lock> ensures Climbs(Flat(ls), -1) {
      FlatClimbs(ls, -1);
    }
    match a {
      case WearEnable(p, known) =>
        FlatClimbs([DeviceLock(p), ObserverLock], Rank(WearStateMapLock(p)));
        BlockClimbs(WearStateMapLock(p), Flat([DeviceLock(p), ObserverLock]), -1);
        ConcatClimbs(Flat([DeviceMapLock(p), DeviceLock(p), DeviceLock(p)]),
                     [Block(WearStateMapLock(p), Flat([DeviceLock(p), ObserverLock]))], -1);
      case UserSelection(p, isWatch) =>
        FlatClimbs([DeviceLock(Hfp)], Rank(WearStateMapLock(Hfp)));
        BlockClimbs(WearStateMapLock(Hfp), Flat([DeviceLock(Hfp)]), -1);
        ConcatClimbs([Block(WearStateMapLock(Hfp), Flat([DeviceLock(Hfp)]))], Flat([ObserverLock]), -1);
      case ClearAll(p) =>
        FlatClimbs([WearStateMapLock(p)], Rank(DeviceMapLock(p)));
        BlockClimbs(DeviceMapLock(p), Flat([WearStateMapLock(p)]), -1);
        ConcatClimbs(Flat([DeviceLock(p)]), [Block(DeviceMapLock(p), Flat([WearStateMapLock(p)]))], -1);
      case SetActiveA2dp(named) =>
        var inner := if named then [DeviceMapLock(A2dp)] else [];
        FlatClimbs(inner, Rank(A2dpInstanceLock));
        BlockClimbs(A2dpInstanceLock, Flat(inner), -1);
      case SetActiveHfp(known, changed, linked, closed) =>
        SetActiveHfpClimbs(known, changed, linked, closed);
      case ConnectScoWithScene(recognition, changed) =>
        ScoClimbs(changed, -1);
        assert recognition ==> Blocks(a) == Flat([]);
      case DisconnectSco(linked) =>
        ScoClimbs(linked, -1);
      case _ =>
    }
  }

  /* Which locks are taken inside which. */

  predicate Takes(bs: seq<Block>, l: Lock) {
    bs != [] && (bs[0].lock == l || Takes(bs[0].inner, l) || Takes(bs[1..], l))
  }

  /** Somewhere in the scopes the inner lock is taken while the outer one is held. */
  predicate Nests(bs: seq<Block>, outer: Lock, inner: Lock) {
    bs != [] &&
    (|| (bs[0].lock == outer && Takes(bs[0].inner, inner))
     || Nests(bs[0].inner, outer, inner)
     || Nests(bs[1..], outer, inner))
  }

  lemma {:induction false} FlatNests(ls: seq<Lock>, outer: Lock, inner: Lock)
    ensures Takes(Flat(ls), inner) <==> inner in ls
    ensures !Nests(Flat(ls), outer, inner)
  {
    if ls != [] {
      FlatNests(ls[1..], outer, inner);
      assert Flat(ls)[1..] == Flat(ls[1..]);
    }
  }

  lemma NothingNests(outer: Lock, inner: Lock)
    ensures !Takes([], inner) && !Nests([], outer, inner)
  {
  }

  lemma BlockNests(l: Lock, bs: seq<Block>, outer: Lock, inner: Lock)
    ensures Takes([Block(l, bs)], inner) <==> l == inner || Takes(bs, inner)
    ensures Nests([Block(l, bs)], outer, inner) <==> (l == outer && Takes(bs, inner)) || Nests(bs, outer, inner)
  {
    assert [Block(l, bs)][1..] == [];
  }

  lemma {:induction false} ConcatNests(x: seq<Block>, y: seq<Block>, outer: Lock, inner: Lock)
    ensures Takes(x + y, inner) <==> Takes(x, inner) || Takes(y, inner)
    ensures Nests(x + y, outer, inner) <==> Nests(x, outer, inner) || Nests(y, outer, inner)
  {
    if x == [] {
      assert x + y == y;
    } else {
      assert (x + y)[1..] == x[1..] + y;
      ConcatNests(x[1..], y, outer, inner);
    }
  }

  /** Every nesting of two locks that any handler ever makes. */
  predicate KnownNesting(outer: Lock, inner: Lock) {
    match outer
    case A2dpInstanceLock => inner == DeviceMapLock(A2dp)
    case DeviceMapLock(p) => inner == WearStateMapLock(p)
    case WearStateMapLock(p) => inner == DeviceLock(p) || inner == ObserverLock
    case ActiveHfpDeviceLock => inner == AudioSceneLock || inner == HfpInstanceLock
    case AudioSceneLock => inner == HfpInstanceLock
    case _ => false
  }

  /** An activity in which the inner lock is taken inside the outer one. */
  function NestingActivity(outer: Lock): Activity {
    match outer
    case A2dpInstanceLock => SetActiveA2dp(true)
    case DeviceMapLock(p) => ClearAll(p)
    case WearStateMapLock(p) => WearEnable(p, true)
    case ActiveHfpDeviceLock => SetActiveHfp(true, true, true, true)
    case _ => DisconnectSco(true)
  }

  lemma ActivityNests(a: Activity, outer: Lock, inner: Lock)
    requires Nests(Blocks(a), outer, inner)
    ensures KnownNesting(outer, inner)
  {
    hide Takes, Nests, Flat;
    forall ls: seq<Lock> ensures !Nests(Flat(ls), outer, inner) && (Takes(Flat(ls), inner) <==> inner in ls) {
      FlatNests(ls, outer, inner);
    }
    match a {
      case WearEnable(p, known) =>
        var ls := [DeviceLock(p), ObserverLock];
        BlockNests(WearStateMapLock(p), Flat(ls), outer, inner);
        ConcatNests(Flat([DeviceMapLock(p), DeviceLock(p), DeviceLock(p)]), [Block(WearStateMapLock(p), Flat(ls))],
                    outer, inner);
      case UserSelection(p, isWatch) =>
        BlockNests(WearStateMapLock(Hfp), Flat([DeviceLock(Hfp)]), outer, inner);
        ConcatNests([Block(WearStateMapLock(Hfp), Flat([DeviceLock(Hfp)]))], Flat([ObserverLock]), outer, inner);
      case ClearAll(p) =>
        BlockNests(DeviceMapLock(p), Flat([WearStateMapLock(p)]), outer, inner);
        ConcatNests(Flat([DeviceLock(p)]), [Block(DeviceMapLock(p), Flat([WearStateMapLock(p)]))], outer, inner);
      case SetActiveA2dp(named) =>
        BlockNests(A2dpInstanceLock, Flat(if named then [DeviceMapLock(A2dp)] else []), outer, inner);
      case SetActiveHfp(known, changed, linked, closed) =>
        SetActiveHfpNests(known, changed, linked, closed, outer, inner);
      case ConnectScoWithScene(recognition, changed) =>
        NothingNests(outer, inner);
        BlockNests(AudioSceneLock, Flat(if changed then [HfpInstanceLock] else []), outer, inner);
      case DisconnectSco(linked) =>
        BlockNests(AudioSceneLock, Flat(if linked then [HfpInstanceLock] else []), outer, inner);
      case _ =>
    }
  }

  lemma KnownIsMade(outer: Lock, inner: Lock)
    requires KnownNesting(outer, inner)
    ensures Nests(Blocks(NestingActivity(outer)), outer, inner)
  {
    hide Takes, Nests, Flat;
    match outer {
      case A2dpInstanceLock =>
        FlatNests([DeviceMapLock(A2dp)], outer, inner);
        BlockNests(outer, Flat([DeviceMapLock(A2dp)]), outer, inner);
      case DeviceMapLock(p) =>
        FlatNests([WearStateMapLock(p)], outer, inner);
        BlockNests(outer, Flat([WearStateMapLock(p)]), outer, inner);
        ConcatNests(Flat([DeviceLock(p)]), [Block(outer, Flat([WearStateMapLock(p)]))], outer, inner);
      case WearStateMapLock(p) =>
        var ls := [DeviceLock(p), ObserverLock];
        FlatNests(ls, outer, inner);
        BlockNests(outer, Flat(ls), outer, inner);
        ConcatNests(Flat([DeviceMapLock(p), DeviceLock(p), DeviceLock(p)]), [Block(outer, Flat(ls))], outer, inner);
      case ActiveHfpDeviceLock =>
        SetActiveHfpNests(true, true, true, true, outer, inner);
      case _ =>
        FlatNests([HfpInstanceLock], outer, inner);
        BlockNests(outer, Flat([HfpInstanceLock]), outer, inner);
    }
  }

  lemma SetActiveHfpNests(known: bool, changed: bool, linked: bool, closed: bool, outer: Lock, inner: Lock)
    ensures Nests(Blocks(SetActiveHfp(known, changed, linked, closed)), outer, inner) ==> KnownNesting(outer, inner)
    ensures known && changed && linked && closed && outer == ActiveHfpDeviceLock && KnownNesting(outer, inner) ==>
              Nests(Blocks(SetActiveHfp(known, changed, linked, closed)), outer, inner)
  {
    hide Takes, Nests, Flat;
    var m, y := Flat([DeviceMapLock(Hfp)]), Flat([HfpInstanceLock]);
    var ls := if linked then [HfpInstanceLock] else [];
    var x := [Block(AudioSceneLock, Flat(ls))];
    FlatNests([DeviceMapLock(Hfp)], outer, inner);
    FlatNests([HfpInstanceLock], outer, inner);
    FlatNests(ls, outer, inner);
    BlockNests(AudioSceneLock, Flat(ls), outer, inner);
    ConcatNests(x, y, outer, inner);
    var bs := if !changed then y else if !closed then x else x + y;
    BlockNests(ActiveHfpDeviceLock, bs, outer, inner);
    ConcatNests(m, [Block(ActiveHfpDeviceLock, bs)], outer, inner);
  }

  /** The nesting of locks over all handlers and branches is exactly the known one. */
  lemma NestingIsExact(outer: Lock, inner: Lock)
    ensures KnownNesting(outer, inner) <==> exists a :: Nests(Blocks(a), outer, inner)
  {
    hide Takes, Nests, Blocks, KnownNesting;
    forall a | Nests(Blocks(a), outer, inner) ensures KnownNesting(outer, inner) {
      ActivityNests(a, outer, inner);
    }
    if KnownNesting(outer, inner) {
      KnownIsMade(outer, inner);
    }
  }

  /* Threads. */

  datatype Op = Acquire(lock: Lock) | Release(lock: Lock)

  function Flatten(bs: seq<Block>): seq<Op> {
    if bs == [] then []
    else [Acquire(bs[0].lock)] + Flatten(bs[0].inner) + [Release(bs[0].lock)] + Flatten(bs[1..])
  }

  /** A thread holds locks, innermost last, and has operations left to do. */
  datatype Thread = Thread(held: seq<Lock>, todo: seq<Op>)

  type World = seq<Thread>

  function Top(held: seq<Lock>): int {
    if held == [] then -1 else Rank(held[|held| - 1])
  }

  /** The operations left climb above the held locks, release the innermost first, and end with none. */
  predicate Orderly(held: seq<Lock>, todo: seq<Op>)
    decreases |todo|
  {
    if todo == [] then held == []
    else
      match todo[0]
      case Acquire(l) => Rank(l) > Top(held) && Orderly(held + [l], todo[1..])
      case Release(l) => held != [] && held[|held| - 1] == l && Orderly(held[..|held| - 1], todo[1..])
  }

  lemma AcquireOrderly(held: seq<Lock>, l: Lock, todo: seq<Op>)
    requires Rank(l) > Top(held) && Orderly(held + [l], todo)
    ensures Orderly(held, [Acquire(l)] + todo)
  {
    assert ([Acquire(l)] + todo)[1..] == todo;
  }

  lemma ReleaseOrderly(held: seq<Lock>, l: Lock, todo: seq<Op>)
    requires Orderly(held, todo)
    ensures Orderly(held + [l], [Release(l)] + todo)
  {
    assert ([Release(l)] + todo)[1..] == todo;
    assert (held + [l])[..|held|] == held;
  }

  lemma FlattenFirst(bs: seq<Block>, rest: seq<Op>)
    ensures bs == [] ==> Flatten(bs) + rest == rest
    ensures bs != [] ==>
              Flatten(bs) + rest ==
              [Acquire(bs[0].lock)] +
              (Flatten(bs[0].inner) + ([Release(bs[0].lock)] + (Flatten(bs[1..]) + rest)))
  {
  }

  /** Scopes that climb are orderly however they are nested. */
  lemma {:induction false} ScopesAreOrderly(bs: seq<Block>, held: seq<Lock>, rest: seq<Op>)
    requires Climbs(bs, Top(held)) && Orderly(held, rest)
    ensures Orderly(held, Flatten(bs) + rest)
    decreases bs
  {
    if bs == [] {
      FlattenFirst(bs, rest);
    } else {
      hide Orderly, Flatten;
      FlattenFirst(bs, rest);
      var l := bs[0].lock;
      var after := Flatten(bs[1..]) + rest;
      ScopesAreOrderly(bs[1..], held, rest);
      ReleaseOrderly(held, l, after);
      ScopesAreOrderly(bs[0].inner, held + [l], [Release(l)] + after);
      AcquireOrderly(held, l, Flatten(bs[0].inner) + ([Release(l)] + after));
    }
  }

  predicate CanStep(w: World, t: nat) {
    t < |w| && w[t].todo != [] &&
    (w[t].todo[0].Acquire? ==> forall u | 0 <= u < |w| :: w[t].todo[0].lock !in w[u].held)
  }

  function StepThread(w: World, t: nat): World
    requires CanStep(w, t)
  {
    var x := w[t];
    match x.todo[0]
    case Acquire(l) => w[t := Thread(x.held + [l], x.todo[1..])]
    case Release(_) => w[t := Thread(if x.held == [] then [] else x.held[..|x.held| - 1], x.todo[1..])]
  }

  predicate Ascending(held: seq<Lock>) {
    forall i, j | 0 <= i < j < |held| :: Rank(held[i]) < Rank(held[j])
  }

  predicate ThreadInv(x: Thread) {
    Orderly(x.held, x.todo) && Ascending(x.held)
  }

  /** Threads are orderly and no lock has two holders. */
  ghost predicate WorldInv(w: World) {
    && (forall t | 0 <= t < |w| :: ThreadInv(w[t]))
    && (forall t, u | 0 <= t < u < |w| :: forall l | l in w[t].held :: l !in w[u].held)
  }

  lemma StepKeepsThreadInv(w: World, t: nat)
    requires CanStep(w, t) && ThreadInv(w[t])
    ensures ThreadInv(StepThread(w, t)[t])
    ensures forall l | l in StepThread(w, t)[t].held :: l in w[t].held || w[t].todo[0] == Acquire(l)
  {
    var x, x' := w[t], StepThread(w, t)[t];
    if x.todo[0].Acquire? {
      assert forall i | 0 <= i < |x.held| :: Rank(x.held[i]) <= Top(x.held);
    }
  }

  lemma StepKeepsWorldInv(w: World, t: nat)
    requires t < |w| && WorldInv(w) && CanStep(w, t)
    ensures WorldInv(StepThread(w, t))
  {
    hide ThreadInv, CanStep;
    assert ThreadInv(w[t]);
    StepKeepsThreadInv(w, t);
    Excluded(w, t);
    var w' := StepThread(w, t);
    assert forall u | 0 <= u < |w| && u != t :: w'[u] == w[u];
  }

  lemma Excluded(w: World, t: nat)
    requires CanStep(w, t)
    ensures w[t].todo[0].Acquire? ==> forall u | 0 <= u < |w| :: w[t].todo[0].lock !in w[u].held
  {
  }

  const TOP_RANK := 9

  lemma TopIsHighest(held: seq<Lock>, l: Lock)
    requires Ascending(held) && l in held
    ensures Rank(l) <= Top(held)
  {
    var i :| 0 <= i < |held| && held[i] == l;
  }

  /** A thread that holds a lock has work left: it releases that lock next, or its next lock ranks above it. */
  lemma HolderHasWork(x: Thread, l: Lock)
    requires ThreadInv(x) && l in x.held
    ensures x.todo != [] &&
            match x.todo[0]
            case Acquire(next) => Rank(next) > Rank(l)
            case Release(next) => Rank(next) >= Rank(l)
  {
    TopIsHighest(x.held, l);
  }

  lemma WaitsFor(w: World, t: nat) returns (u: nat)
    requires t < |w| && w[t].todo != [] && !CanStep(w, t)
    ensures w[t].todo[0].Acquire? && u < |w| && w[t].todo[0].lock in w[u].held
  {
    u :| 0 <= u < |w| && w[t].todo[0].lock in w[u].held;
  }

  lemma InvOfThread(w: World, t: nat)
    requires WorldInv(w) && t < |w|
    ensures ThreadInv(w[t])
  {
  }

  /** From any thread with work left, following who waits for whom ends at a thread that can step. */
  lemma {:induction false} FindRunnable(w: World, t: nat) returns (u: nat)
    requires WorldInv(w) && t < |w| && w[t].todo != []
    ensures CanStep(w, u)
    decreases TOP_RANK - Rank(w[t].todo[0].lock), if w[t].todo[0].Acquire? then 1 else 0
  {
    hide WorldInv, ThreadInv, CanStep;
    u := t;
    if !CanStep(w, t) {
      u := WaitsFor(w, t);
      InvOfThread(w, u);
      HolderHasWork(w[u], w[t].todo[0].lock);
      u := FindRunnable(w, u);
    }
  }

  /** The threads that take the next steps, one after the other. */
  ghost predicate IsSchedule(w: World, schedule: seq<nat>)
    decreases |schedule|
  {
    schedule == [] || (CanStep(w, schedule[0]) && IsSchedule(StepThread(w, schedule[0]), schedule[1..]))
  }

  ghost function AfterSchedule(w: World, schedule: seq<nat>): World
    requires IsSchedule(w, schedule)
    decreases |schedule|
  {
    if schedule == [] then w else AfterSchedule(StepThread(w, schedule[0]), schedule[1..])
  }

  lemma {:induction false} ScheduleKeepsWorldInv(w: World, schedule: seq<nat>)
    requires WorldInv(w) && IsSchedule(w, schedule)
    ensures WorldInv(AfterSchedule(w, schedule))
    decreases |schedule|
  {
    if schedule != [] {
      StepKeepsWorldInv(w, schedule[0]);
      ScheduleKeepsWorldInv(StepThread(w, schedule[0]), schedule[1..]);
    }
  }

  /** The operations of a thread that runs some activities in turn. */
  function Program(activities: seq<Activity>): seq<Op> {
    if activities == [] then [] else Flatten(Blocks(activities[0])) + Program(activities[1..])
  }

  function Start(programs: seq<seq<Activity>>): World {
    seq(|programs|, t requires 0 <= t < |programs| => Thread([], Program(programs[t])))
  }

  lemma {:induction false} ProgramIsOrderly(activities: seq<Activity>)
    ensures Orderly([], Program(activities))
  {
    if activities != [] {
      ProgramIsOrderly(activities[1..]);
      ActivityClimbs(activities[0]);
      ScopesAreOrderly(Blocks(activities[0]), [], Program(activities[1..]));
    }
  }

  ghost predicate WorkRemains(w: World) {
    exists t :: 0 <= t < |w| && w[t].todo != []
  }

  /**
   Deadlock freedom: any number of threads, each running any activities in turn, after any interleaving
   of their steps, can go on as long as any of them has work left.
   */
  lemma DeadlockFree(programs: seq<seq<Activity>>, schedule: seq<nat>)
    requires IsSchedule(Start(programs), schedule)
    ensures var w := AfterSchedule(Start(programs), schedule);
            WorkRemains(w) ==> exists u: nat :: CanStep(w, u)
  {
    var w0 := Start(programs);
    forall t | 0 <= t < |w0| ensures ThreadInv(w0[t]) {
      ProgramIsOrderly(programs[t]);
    }
    ScheduleKeepsWorldInv(w0, schedule);
    var w := AfterSchedule(w0, schedule);
    if WorkRemains(w) {
      var t :| 0 <= t < |w| && w[t].todo != [];
      var u := FindRunnable(w, t);
    }
  }

  function Work(w: World): nat {
    if w == [] then 0 else |w[0].todo| + Work(w[1..])
  }

  lemma {:induction false} StepDoesWork(w: World, t: nat, x: Thread)
    requires t < |w| && w[t].todo != [] && x.todo == w[t].todo[1..]
    ensures Work(w[t := x]) == Work(w) - 1
  {
    if t == 0 {
      assert w[t := x][1..] == w[1..];
    } else {
      assert w[t := x][1..] == w[1..][t - 1 := x];
      StepDoesWork(w[1..], t - 1, x);
    }
  }

  /** Every schedule does one operation a step, so that all work gets done. */
  lemma {:induction false} ScheduleDoesWork(w: World, schedule: seq<nat>)
    requires IsSchedule(w, schedule)
    ensures Work(AfterSchedule(w, schedule)) == Work(w) - |schedule|
    decreases |schedule|
  {
    if schedule != [] {
      var t := schedule[0];
      StepDoesWork(w, t, StepThread(w, t)[t]);
      assert StepThread(w, t) == w[t := StepThread(w, t)[t]];
      ScheduleDoesWork(StepThread(w, t), schedule[1..]);
    }
  }
}
