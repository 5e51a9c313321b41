/** The order of the privacy list, and what a hands-free selection of a watch makes of it. */
module Recency {
  import opened BluetoothTypes
  import opened ConfigVector
  import opened DeviceRegistry
  import opened DeviceAutomaton
  import opened RegistryInvariant

  /** A step promotes a device when it makes the device wanted for private listening anew. */
  predicate Promotes(r: Registry, s: Step, a: Address) {
    s.Act? && s.event.device == a &&
    var e := s.event;
    if a !in r.connected then e.action == CONNECT_ACTION && Placement(e.category, e.wearDetection) == Privacy
    else
      || e.action == WEAR_ACTION
      || e.action == DISABLE_WEAR_DETECTION_ACTION
      || (e.action == ENABLE_WEAR_DETECTION_ACTION && MarkedWorn(r, a))
  }

  predicate PromotedAt(p: Profile, steps: seq<Step>, k: nat, a: Address)
    requires k < |steps|
  {
    Promotes(Run(p, steps[..k]), steps[k], a)
  }

  /** The position in the run of the latest promotion of a device, or -1. */
  function LastPromotion(p: Profile, steps: seq<Step>, a: Address): (k: int)
    ensures -1 <= k < |steps|
  {
    if steps == [] then -1
    else
      var n := |steps| - 1;
      if PromotedAt(p, steps, n, a) then n else LastPromotion(p, steps[..n], a)
  }

  lemma {:induction false} LastPromotionIsLatest(p: Profile, steps: seq<Step>, a: Address)
    ensures var k := LastPromotion(p, steps, a);
            && (k >= 0 ==> PromotedAt(p, steps, k, a))
            && (forall j :: k < j < |steps| ==> !PromotedAt(p, steps, j, a))
  {
    if steps != [] {
      var n := |steps| - 1;
      forall j | 0 <= j < n ensures PromotedAt(p, steps[..n], j, a) == PromotedAt(p, steps, j, a) {
        assert steps[..n][..j] == steps[..j];
      }
      LastPromotionIsLatest(p, steps[..n], a);
    }
  }

  lemma PromotionStep(p: Profile, steps: seq<Step>, a: Address)
    requires steps != []
    ensures var n := |steps| - 1;
            var now := Promotes(Run(p, steps[..n]), steps[n], a);
            && LastPromotion(p, steps, a) == (if now then n else LastPromotion(p, steps[..n], a))
            && (now ==> steps[n].Act? && steps[n].event.device == a)
  {
    hide Run;
  }

  /** A list of promoted devices in the order of their promotions. */
  ghost predicate OldestFirst(promoted: Address -> int, v: seq<Address>) {
    && (forall i | 0 <= i < |v| :: promoted(v[i]) >= 0)
    && (forall i, j | 0 <= i < j < |v| :: promoted(v[i]) < promoted(v[j]))
  }

  lemma EraseKeepsOrder(t: Address -> int, v: seq<Address>, d: Address)
    requires OldestFirst(t, v)
    ensures OldestFirst(t, EraseFirst(v, d))
  {
    var r := EraseFirst(v, d);
    var i := IndexOf(v, d);
    assert forall k | 0 <= k < |r| :: r[k] == if k < i then v[k] else v[k + 1];
    hide EraseFirst;
    forall a, b | 0 <= a < b < |r| ensures t(r[a]) < t(r[b]) {
      assert t(v[if a < i then a else a + 1]) < t(v[if b < i then b else b + 1]);
    }
  }

  /** Promoting a device later than all others, and moving it to the end, keeps the order. */
  lemma AppendKeepsOrder(t: Address -> int, t': Address -> int, v: seq<Address>, d: Address, n: nat)
    requires OldestFirst(t, v) && d !in v && t'(d) == n
    requires forall x | x in v :: t'(x) == t(x) < n
    ensures OldestFirst(t', v + [d])
  {
  }

  /** The privacy list after one step: as it was, without the device, or with the device moved to the end. */
  lemma PrivacyAfter(p: Profile, r: Registry, s: Step)
    requires Inv(r)
    ensures var v' := Next(p, r, s).privacy;
            if s.ClearAll? then v' == []
            else if Promotes(r, s, s.event.device) then
              v' == EraseFirst(r.privacy, s.event.device) + [s.event.device]
            else v' == r.privacy || v' == EraseFirst(r.privacy, s.event.device)
  {
    match s
    case ClearAll =>
    case Act(e) =>
      var d := e.device;
      assert Sound(Project(r, d));
      assert d !in r.connected ==> d !in r.privacy && EraseFirst(r.privacy, d) == r.privacy;
      hide EraseFirst;
      if e.action == CONNECT_ACTION {
      } else if e.action == DISCONNECT_ACTION {
      } else if IsWearAction(e.action) {
        assert d !in EraseFirst(r.privacy, d);
      } else {
      }
  }

  function Promotions(p: Profile, steps: seq<Step>): Address -> int {
    a => LastPromotion(p, steps, a)
  }

  /** Over every run the privacy list is ordered by each device's latest promotion. */
  lemma {:induction false} PrivacyIsOldestFirst(p: Profile, steps: seq<Step>)
    ensures OldestFirst(Promotions(p, steps), Run(p, steps).privacy)
  {
    hide Apply, Promotes, Inv, EraseFirst;
    if steps != [] {
      var n := |steps| - 1;
      var before, s := steps[..n], steps[n];
      var r := Run(p, before);
      var t, t' := Promotions(p, before), Promotions(p, steps);
      PrivacyIsOldestFirst(p, before);
      RunKeepsInv(p, before);
      PrivacyAfter(p, r, s);
      if s.Act? {
        var d := s.event.device;
        var v := EraseFirst(r.privacy, d);
        EraseKeepsOrder(t, r.privacy, d);
        forall x ensures t'(x) == if Promotes(r, s, x) then n else t(x)
                 ensures Promotes(r, s, x) ==> x == d
        {
          PromotionStep(p, steps, x);
        }
        assert Inv(r) ==> d !in v by { InvIsDistinct(r); }
        if Promotes(r, s, d) {
          AppendKeepsOrder(t, t', v, d, n);
        }
      }
    }
  }

  lemma {:induction false} LastWornIsLast(v: seq<Address>, wear: map<Address, WearState>)
    ensures LastWorn(v, wear).Some? ==>
              exists i :: 0 <= i < |v| && v[i] == LastWorn(v, wear).value &&
                          forall j | i < j < |v| :: v[j] in wear && wear[v[j]] == Unwear
  {
    if v != [] {
      var rest := v[..|v| - 1];
      LastWornIsLast(rest, wear);
      if LastWorn(v, wear).Some? {
        var i :| 0 <= i < |v| && v[i] == LastWorn(v, wear).value &&
                 (i == |v| - 1 || forall j | i < j < |rest| :: rest[j] in wear && rest[j] in v && wear[rest[j]] == Unwear);
      }
    }
  }

  /** A device that a watch selection may be forwarded to. */
  ghost predicate Candidate(v: seq<Address>, wear: map<Address, WearState>, d: Address) {
    d in v && !(d in wear && wear[d] == Unwear)
  }

  lemma LastWornIsLatest(t: Address -> int, v: seq<Address>, wear: map<Address, WearState>)
    requires OldestFirst(t, v)
    ensures match LastWorn(v, wear)
            case None => forall d :: !Candidate(v, wear, d)
            case Some(x) => Candidate(v, wear, x) && forall d | Candidate(v, wear, d) && d != x :: t(d) < t(x)
  {
    LastWornFound(v, wear);
    LastWornIsLast(v, wear);
    hide LastWorn;
    if LastWorn(v, wear).Some? {
      var x := LastWorn(v, wear).value;
      var i :| 0 <= i < |v| && v[i] == x && forall j | i < j < |v| :: v[j] in wear && wear[v[j]] == Unwear;
      forall d | Candidate(v, wear, d) && d != x ensures t(d) < t(x) {
        var k :| 0 <= k < |v| && v[k] == d;
        assert k < i;
      }
    }
  }

  /** What a selection of a watch announces and changes, by the device it looks up. */
  lemma WatchSelection(r: Registry, e: Event)
    requires e.action == USER_SELECTION_ACTION && e.category == BtWatch
    ensures Announce(Hfp, r, e) == [ForcedSelection(Hfp, SelectedDevice(Hfp, r, e))]
    ensures match LastWorn(r.privacy, r.wear)
            case None => SelectedDevice(Hfp, r, e) == e.device && Apply(Hfp, r, e) == r
            case Some(x) =>
              && SelectedDevice(Hfp, r, e) == x
              && Apply(Hfp, r, e) == if x in r.wear then r else r.(wear := r.wear[x := Wear])
  {
    hide LastWorn;
  }

  /** With a candidate the device looked up is the latest one; without one there is none to look up. */
  lemma LastWornIsLatestCandidate(t: Address -> int, v: seq<Address>, wear: map<Address, WearState>)
    requires OldestFirst(t, v)
    ensures LastWorn(v, wear).Some? <==> exists d :: Candidate(v, wear, d)
    ensures LastWorn(v, wear).Some? ==>
              var x := LastWorn(v, wear).value;
              Candidate(v, wear, x) && forall d | Candidate(v, wear, d) && d != x :: t(d) < t(x)
  {
    hide LastWorn, Candidate, OldestFirst;
    LastWornIsLatest(t, v, wear);
  }

  /**
   Selecting a watch in the hands-free manager forwards to the candidate promoted last, or to the
   watch itself when there is none, and changes nothing but the missing wear record of that device.
   */
  lemma WatchForwardsToLatest(steps: seq<Step>, e: Event)
    requires e.action == USER_SELECTION_ACTION && e.category == BtWatch
    ensures var r := Run(Hfp, steps);
            var x := SelectedDevice(Hfp, r, e);
            && Announce(Hfp, r, e) == [ForcedSelection(Hfp, x)]
            && (if exists d :: Candidate(r.privacy, r.wear, d) then
                  && Candidate(r.privacy, r.wear, x)
                  && (forall d | Candidate(r.privacy, r.wear, d) && d != x ::
                        LastPromotion(Hfp, steps, d) < LastPromotion(Hfp, steps, x))
                  && Apply(Hfp, r, e) == (if x in r.wear then r else r.(wear := r.wear[x := Wear]))
                else x == e.device && Apply(Hfp, r, e) == r)
  {
    hide Run, LastPromotion, Announce, Apply, SelectedDevice, LastWorn, Candidate, OldestFirst;
    var r := Run(Hfp, steps);
    PrivacyIsOldestFirst(Hfp, steps);
    WatchSelection(r, e);
    LastWornIsLatestCandidate(Promotions(Hfp, steps), r.privacy, r.wear);
  }
}
