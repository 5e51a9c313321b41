/** Ownership of the device descriptor arrays that the routing manager hands to C callers. */
module DescriptorArray {
  import opened BlockHeap

  class OHAudioDeviceDescriptor<Device> {
    const device: Device

    constructor (device: Device)
      ensures this.device == device
    {
      this.device := device;
    }
  }

  ghost function BlocksOf<Device>(entries: seq<OHAudioDeviceDescriptor?<Device>>): set<object>
    requires forall i | 0 <= i < |entries| :: entries[i] != null
  {
    set i | 0 <= i < |entries| :: entries[i]
  }

  lemma BlocksOfSnoc<Device>(entries: seq<OHAudioDeviceDescriptor?<Device>>, d: OHAudioDeviceDescriptor<Device>)
    requires forall i | 0 <= i < |entries| :: entries[i] != null
    ensures BlocksOf(entries + [d]) == BlocksOf(entries) + {d}
  {
    var more := entries + [d];
    assert more[|entries|] == d;
    forall o | o in BlocksOf(entries) ensures o in BlocksOf(more) {
      var i :| 0 <= i < |entries| && entries[i] == o;
      assert more[i] == o;
    }
  }

  class OHAudioDeviceDescriptorArray<Device> {
    var size: nat
    var descriptors: array?<OHAudioDeviceDescriptor?<Device>>

    constructor ()
      ensures descriptors == null && size == 0
    {
      descriptors, size := null, 0;
    }

    /** The counted entries are different blocks, and none of them is the array or its buffer. */
    ghost predicate Valid()
      reads this, descriptors
    {
      && descriptors != null && size <= descriptors.Length
      && (forall i | 0 <= i < size :: descriptors[i] != null)
      && (forall i, j | 0 <= i < j < size :: descriptors[i] != descriptors[j])
      && (forall i | 0 <= i < size :: descriptors[i] as object !in {this, descriptors})
    }

    ghost function Entries(): set<object>
      requires Valid()
      reads this, descriptors
    {
      BlocksOf(descriptors[..size])
    }

    /** Everything allocated for the array. */
    ghost function Blocks(): set<object>
      requires Valid()
      reads this, descriptors
    {
      {this, descriptors} + Entries()
    }
  }

  const MAX_VALID_SIZE := 128

  /** Deletes the counted entries, one by one, and forgets them. */
  method DeleteEntries<Device>(heap: Heap, a: OHAudioDeviceDescriptorArray<Device>)
    requires a.Valid() && a.Entries() <= heap.live
    modifies heap`live, a.descriptors
    ensures heap.live == old(heap.live) - old(a.Entries())
    ensures forall i | 0 <= i < a.size :: a.descriptors[i] == null
  {
    ghost var was := a.descriptors[..];
    var index := 0;
    while index < a.size
      invariant index <= a.size
      invariant forall i | 0 <= i < index :: a.descriptors[i] == null
      invariant forall i | index <= i < a.size :: a.descriptors[i] == was[i]
      invariant forall i | index <= i < a.size :: was[i] in heap.live
      invariant heap.live == old(heap.live) - set i | 0 <= i < index :: was[i] as object
    {
      heap.Free(a.descriptors[index]);
      a.descriptors[index] := null;
      index := index + 1;
    }
    assert old(a.Entries()) == set i | 0 <= i < a.size :: was[i] as object;
  }

  method DestroyAudioDeviceDescriptor<Device>(heap: Heap, a: OHAudioDeviceDescriptorArray?<Device>)
    requires a != null ==> a.Valid() && a.Blocks() <= heap.live
    modifies heap`live, if a == null then {} else {a.descriptors}
    ensures heap.live == old(heap.live) - if a == null then {} else old(a.Blocks())
  {
    if a != null {
      DeleteEntries(heap, a);
      heap.Free(a.descriptors);
      heap.Free(a);
    }
  }

  /** OH_AudioRoutingManager_ReleaseDevices; the result says whether both parameters were given. */
  method ReleaseDevices<Device>(heap: Heap, hasManager: bool, a: OHAudioDeviceDescriptorArray?<Device>)
    returns (success: bool)
    requires a != null ==> a.Valid() && a.Blocks() <= heap.live
    modifies heap`live, if a == null then {} else {a, a.descriptors}
    ensures success <==> hasManager && a != null
    ensures heap.live == old(heap.live) - if success then old(a.Blocks()) else {}
    ensures success ==> a.descriptors == null
  {
    if !hasManager || a == null {
      return false;
    }
    DeleteEntries(heap, a);
    heap.Free(a.descriptors);
    a.descriptors := null;
    heap.Free(a);
    success := true;
  }

  /** The next n allocations are granted. */
  ghost predicate AllGranted(grants: nat -> bool, next: nat, n: nat) {
    forall k: nat | next <= k < next + n :: grants(k)
  }

  /** The filling loop of ConvertDesc, up to the first entry whose allocation is refused. */
  method WrapDevices<Device>(heap: Heap, a: OHAudioDeviceDescriptorArray<Device>, desc: seq<Device>)
    returns (complete: bool)
    requires a.Valid() && a.size == 0 && a.descriptors.Length == |desc|
    modifies heap`asked, heap`live, a`size, a.descriptors
    ensures a.Valid() && fresh(a.Entries()) && heap.live == old(heap.live) + a.Entries()
    ensures complete <==> AllGranted(heap.grants, old(heap.asked), |desc|)
    ensures complete ==> a.size == |desc| && forall i | 0 <= i < |desc| :: a.descriptors[i].device == desc[i]
  {
    var index := 0;
    while index < |desc|
      invariant index == a.size <= |desc|
      invariant a.Valid() && a.descriptors.Length == |desc|
      invariant forall i | 0 <= i < index :: a.descriptors[i].device == desc[i]
      invariant fresh(a.Entries()) && heap.live == old(heap.live) + a.Entries()
      invariant heap.asked == old(heap.asked) + index && AllGranted(heap.grants, old(heap.asked), index)
    {
      var granted := heap.Ask();
      if !granted {
        return false;
      }
      ghost var was := a.descriptors[..index];
      var d := new OHAudioDeviceDescriptor(desc[index]);
      heap.Allocated(d);
      a.descriptors[index] := d;
      index := index + 1;
      a.size := index;
      assert a.descriptors[..index] == was + [d];
      BlocksOfSnoc(was, d);
    }
    complete := true;
  }

  /**
   Builds an array that wraps the devices in order; or, when the list has no valid size or any
   allocation is refused, gives back whatever was allocated and returns null.
   */
  method ConvertDesc<Device>(heap: Heap, desc: seq<Device>) returns (r: OHAudioDeviceDescriptorArray?<Device>)
    modifies heap`asked, heap`live
    ensures r != null <==> 0 < |desc| < MAX_VALID_SIZE && AllGranted(heap.grants, old(heap.asked), |desc| + 2)
    ensures r == null ==> heap.live == old(heap.live)
    ensures r != null ==>
              && r.Valid() && r.size == |desc|
              && (forall i | 0 <= i < |desc| :: r.descriptors[i].device == desc[i])
              && fresh(r.Blocks())
              && heap.live == old(heap.live) + r.Blocks()
  {
    var size := |desc|;
    if size == 0 || size >= MAX_VALID_SIZE {
      return null;
    }
    var granted := heap.Ask();
    if !granted {
      return null;
    }
    var a := new OHAudioDeviceDescriptorArray();
    heap.Allocated(a);
    granted := heap.Ask();
    if !granted {
      heap.Free(a);
      return null;
    }
    var block := new OHAudioDeviceDescriptor?<Device>[size](_ => null);
    a.descriptors := block;
    heap.Allocated(block);
    var complete := WrapDevices(heap, a, desc);
    if !complete {
      DestroyAudioDeviceDescriptor(heap, a);
      return null;
    }
    return a;
  }

  /** A converted list given back leaves nothing allocated that was not before. */
  method ConvertThenRelease<Device>(heap: Heap, desc: seq<Device>)
    modifies heap`asked, heap`live
    ensures heap.live == old(heap.live)
  {
    var r := ConvertDesc(heap, desc);
    var released := ReleaseDevices(heap, true, r);
  }
}
