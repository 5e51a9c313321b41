/** What every action keeps of the registry, in both managers. */
module RegistryInvariant {
  import opened Wrappers
  import opened BluetoothTypes
  import opened ConfigVector
  import opened DeviceRegistry
  import opened DeviceAutomaton

  /**
   A device is never on both the privacy and the negative list; on the privacy or common list only
   when connected; on some list when connected; with a wear record only when connected; and on the
   privacy list when recorded as worn.
   */
  predicate Sound(s: DeviceState) {
    && !(s.inPrivacy && s.inNegative)
    && (s.inPrivacy || s.inCommon ==> s.connected)
    && (s.connected ==> s.inPrivacy || s.inCommon || s.inNegative)
    && (s.wear.Some? ==> s.connected)
    && (s.wear == Some(Wear) ==> s.inPrivacy)
  }

  /** The registry invariant: lists without duplicates, and every device sound. */
  ghost predicate Inv(r: Registry) {
    Distinct(r) && forall a :: Sound(Project(r, a))
  }

  lemma InvIsDistinct(r: Registry)
    requires Inv(r)
    ensures Distinct(r)
  {
  }

  lemma StepKeepsInv(p: Profile, r: Registry, s: Step)
    requires Inv(r)
    ensures Inv(Next(p, r, s))
  {
    LastWornFound(r.privacy, r.wear);
    StepProjects(p, r, s, DEFAULT_ADDRESS);
    forall a ensures Sound(Project(Next(p, r, s), a)) {
      StepProjects(p, r, s, a);
      assert Sound(Project(r, a));
    }
  }

  lemma {:induction false} RunKeepsInv(p: Profile, steps: seq<Step>)
    ensures Inv(Run(p, steps))
  {
    if steps != [] {
      RunKeepsInv(p, steps[..|steps| - 1]);
      StepKeepsInv(p, Run(p, steps[..|steps| - 1]), steps[|steps| - 1]);
    }
  }

  /** The same invariant said of the five containers. */
  lemma InvOfContainers(r: Registry)
    ensures Inv(r) <==>
              && NoDuplicates(r.privacy) && NoDuplicates(r.common) && NoDuplicates(r.negative)
              && (forall d | d in r.privacy :: d !in r.negative)
              && (forall d | d in r.privacy || d in r.common :: d in r.connected)
              && (forall d | d in r.connected :: d in r.privacy || d in r.common || d in r.negative)
              && r.wear.Keys <= r.connected
              && (forall d | MarkedWorn(r, d) :: d in r.privacy)
  {
    if Inv(r) {
      assert forall d :: Sound(Project(r, d)) && Project(r, d).inPrivacy == (d in r.privacy);
      assert forall d | d in r.common || d in r.connected || d in r.wear :: Sound(Project(r, d));
    }
  }

  /** No device is both on the common list and on another one. */
  ghost predicate OneListEach(r: Registry) {
    forall a | a in r.common :: a !in r.privacy && a !in r.negative
  }

  predicate WearsCommon(r: Registry, s: Step) {
    s.Act? && IsWearAction(s.event.action) && s.event.device in r.common
  }

  /** A wear action on a common device, and nothing else, puts a connected device on two lists. */
  lemma OneListIff(p: Profile, r: Registry, s: Step)
    requires Inv(r) && OneListEach(r)
    ensures OneListEach(Next(p, r, s)) <==> !WearsCommon(r, s)
  {
    var r' := Next(p, r, s);
    forall a
      ensures (a in r'.common && (a in r'.privacy || a in r'.negative)) <==>
              (s.Act? && s.event.device == a && WearsCommon(r, s))
    {
      StepProjects(p, r, s, a);
      assert Sound(Project(r, a));
      assert Project(r', a) == DeviceState(Project(r', a).connected, Project(r', a).wear,
                                           a in r'.privacy, a in r'.common, a in r'.negative);
    }
  }

  ghost predicate NeverWearsCommon(p: Profile, steps: seq<Step>) {
    forall k | 0 <= k < |steps| :: !WearsCommon(Run(p, steps[..k]), steps[k])
  }

  /** Over a run in which no wear action finds its device common, connected devices are on one list each. */
  lemma {:induction false} RunOneListEach(p: Profile, steps: seq<Step>)
    requires NeverWearsCommon(p, steps)
    ensures OneListEach(Run(p, steps))
  {
    if steps != [] {
      var before := steps[..|steps| - 1];
      assert steps[..|steps| - 1] == before;
      assert forall k | 0 <= k < |before| :: before[..k] == steps[..k];
      RunOneListEach(p, before);
      RunKeepsInv(p, before);
      OneListIff(p, Run(p, before), steps[|steps| - 1]);
    }
  }
}
