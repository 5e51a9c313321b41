/**
 The ordered device lists of a manager, searched and edited by address: an insertion appends an
 absent device, a removal erases the first match only.
 */
module ConfigVector {
  import opened BluetoothTypes

  ghost predicate NoDuplicates(v: seq<Address>) {
    forall i, j :: 0 <= i < j < |v| ==> v[i] != v[j]
  }

  /** Position of the first match, or the length of the list. */
  function IndexOf(v: seq<Address>, d: Address): (i: nat)
    ensures i <= |v|
    ensures i < |v| ==> v[i] == d
    ensures forall k :: 0 <= k < i ==> v[k] != d
  {
    if v == [] || v[0] == d then 0 else 1 + IndexOf(v[1..], d)
  }

  function Insert(v: seq<Address>, d: Address): (r: seq<Address>)
    ensures forall x :: x in r <==> x in v || x == d
    ensures NoDuplicates(v) ==> NoDuplicates(r)
  {
    if d in v then v else v + [d]
  }

  function EraseFirst(v: seq<Address>, d: Address): (r: seq<Address>)
    ensures forall x :: x in r ==> x in v
    ensures forall x :: x in v && x != d ==> x in r
    ensures NoDuplicates(v) ==> NoDuplicates(r) && d !in r
    ensures d !in v ==> r == v
  {
    var i := IndexOf(v, d);
    if i < |v| then
      assert v == v[..i] + [v[i]] + v[i + 1..];
      v[..i] + v[i + 1..]
    else v
  }

  method FindDevice(d: Address, v: seq<Address>) returns (i: nat)
    ensures i == IndexOf(v, d)
  {
    i := 0;
    while i < |v| && v[i] != d
      invariant i <= |v|
      invariant forall k :: 0 <= k < i ==> v[k] != d
    {
      i := i + 1;
    }
  }

  method AddDeviceInConfigVector(d: Address, v: seq<Address>) returns (r: seq<Address>)
    ensures r == Insert(v, d)
    ensures v <= r
  {
    var i := FindDevice(d, v);
    if i == |v| {
      r := v + [d];
    } else {
      r := v;
    }
  }

  method RemoveDeviceInConfigVector(d: Address, v: seq<Address>) returns (r: seq<Address>)
    ensures r == EraseFirst(v, d)
    ensures |r| == if d in v then |v| - 1 else |v|
  {
    var i := FindDevice(d, v);
    if i != |v| {
      r := v[..i] + v[i + 1..];
    } else {
      r := v;
    }
  }

  /** An insertion appends an absent device and leaves a present one in its place. */
  lemma InsertAppends(v: seq<Address>, d: Address)
    ensures Insert(v, d) == if d in v then v else v + [d]
  {
  }

  /** An erasure takes out the first occurrence: the devices before it and behind it stay, in order. */
  lemma EraseTakesFirst(v: seq<Address>, i: nat)
    requires i < |v| && v[i] !in v[..i]
    ensures EraseFirst(v, v[i]) == v[..i] + v[i + 1..]
  {
  }

  /** One erasure empties the list of a device exactly when the device occurs at most once. */
  lemma EraseCompleteIff(v: seq<Address>, d: Address)
    ensures d !in EraseFirst(v, d) <==> multiset(v)[d] <= 1
  {
    var i := IndexOf(v, d);
    if i < |v| {
      assert v == v[..i] + [v[i]] + v[i + 1..];
      assert multiset(v) == multiset(v[..i]) + multiset{d} + multiset(v[i + 1..]);
      assert multiset(EraseFirst(v, d)) == multiset(v[..i]) + multiset(v[i + 1..]);
    }
    assert d in EraseFirst(v, d) <==> d in multiset(EraseFirst(v, d));
  }
}
