/** Devices in slot order (cloneSnapshot in internal/equipment/store.go). */
module EquipmentSort {
  import opened EquipmentModel

  /** How many leading devices stay before one with this slot. */
  function Place(slot: int, s: seq<Device>): (k: nat)
    ensures k <= |s|
    ensures forall i :: 0 <= i < k ==> s[i].slot <= slot
    ensures k < |s| ==> slot < s[k].slot
  {
    if s == [] || slot < s[0].slot then 0 else 1 + Place(slot, s[1..])
  }

  function InsertAt(d: Device, s: seq<Device>, k: nat): (r: seq<Device>)
    requires k <= |s|
    ensures |r| == |s| + 1
    ensures forall i :: 0 <= i < |r| ==> r[i] == if i < k then s[i] else if i == k then d else s[i - 1]
  {
    s[..k] + [d] + s[k..]
  }

  function BySlot(s: seq<Device>): (r: seq<Device>)
    ensures |r| == |s|
  {
    if s == [] then []
    else
      var t := BySlot(s[1..]);
      InsertAt(s[0], t, Place(s[0].slot, t))
  }

  predicate InSlotOrder(s: seq<Device>) {
    forall i, j :: 0 <= i < j < |s| ==> s[i].slot <= s[j].slot
  }

  lemma InsertKeepsOrder(d: Device, t: seq<Device>)
    requires InSlotOrder(t)
    ensures InSlotOrder(InsertAt(d, t, Place(d.slot, t)))
  {
  }

  lemma InsertAdds(d: Device, t: seq<Device>, k: nat)
    requires k <= |t|
    ensures multiset(InsertAt(d, t, k)) == multiset([d] + t)
  {
    assert t == t[..k] + t[k..];
  }

  lemma InsertPermutes(d: Device, t: seq<Device>, rest: seq<Device>)
    requires InSlotOrder(t) && multiset(t) == multiset(rest)
    ensures var r := InsertAt(d, t, Place(d.slot, t)); InSlotOrder(r) && multiset(r) == multiset([d] + rest)
  {
    InsertKeepsOrder(d, t);
    InsertAdds(d, t, Place(d.slot, t));
  }

  /** The copy holds the same devices, in slot order. */
  lemma {:induction false} SortPermutes(s: seq<Device>)
    ensures InSlotOrder(BySlot(s)) && multiset(BySlot(s)) == multiset(s)
  {
    if s == [] {
      assert BySlot(s) == [];
    } else {
      var d, rest := s[0], s[1..];
      SortPermutes(rest);
      InsertPermutes(d, BySlot(rest), rest);
      assert s == [d] + rest;
    }
  }

  lemma InsertFits(d: Device, t: seq<Device>, k: nat)
    requires k <= |t| && DevicesFit(t) && DeviceOk(d) && forall i :: 0 <= i < |t| ==> DevicesApart(d, t[i])
    ensures DevicesFit(InsertAt(d, t, k))
  {
    var r := InsertAt(d, t, k);
    forall i, j | 0 <= i < j < |r| ensures DevicesApart(r[i], r[j]) {
      var a, b := if i < k then i else i - 1, if j < k then j else j - 1;
      assert i != k && j != k ==> DevicesApart(t[a], t[b]);
    }
  }

  lemma SortedFrom(s: seq<Device>, i: nat) returns (j: nat)
    requires i < |s|
    ensures j < |s| && BySlot(s)[i] == s[j]
  {
    SortPermutes(s);
    assert BySlot(s)[i] in multiset(BySlot(s));
    j :| 0 <= j < |s| && s[j] == BySlot(s)[i];
  }

  lemma SortedTo(s: seq<Device>, i: nat) returns (j: nat)
    requires i < |s|
    ensures j < |s| && BySlot(s)[j] == s[i]
  {
    SortPermutes(s);
    assert s[i] in multiset(s);
    assert s[i] in multiset(BySlot(s));
    j :| 0 <= j < |s| && BySlot(s)[j] == s[i];
  }

  /** Sorting a fitting list leaves it fitting: no condition depends on the order. */
  lemma {:induction false} SortFits(s: seq<Device>)
    requires DevicesFit(s)
    ensures DevicesFit(BySlot(s))
  {
    if s != [] {
      var rest := s[1..];
      var t := BySlot(rest);
      SortFits(rest);
      forall i | 0 <= i < |t| ensures DevicesApart(s[0], t[i]) {
        var j := SortedFrom(rest, i);
        assert DevicesApart(s[0], s[j + 1]);
      }
      InsertFits(s[0], t, Place(s[0].slot, t));
    }
  }
}
