/**
 Rebinding one device of the equipment map to another switch (Assign in internal/equipment/store.go).
 */
module EquipmentAssign {
  import opened EquipmentModel

  predicate GoodEntity(e: string) {
    HasPrefix(e, SWITCH) && forall i :: 0 <= i < |e| ==> e[i] !in " \t\r\n"
  }

  /** The first device with this id, or -1. */
  function Find(devices: seq<Device>, id: string): (r: int)
    ensures -1 <= r < |devices|
    ensures r >= 0 ==> devices[r].id == id && forall i :: 0 <= i < r ==> devices[i].id != id
    ensures r < 0 ==> forall i :: 0 <= i < |devices| ==> devices[i].id != id
  {
    if devices == [] then -1
    else if devices[0].id == id then 0
    else
      var r := Find(devices[1..], id);
      if r < 0 then -1 else r + 1
  }

  /** The first device other than t bound to e, or -1. */
  function Holder(devices: seq<Device>, t: int, e: string, from: nat): (r: int)
    requires from <= |devices|
    ensures r == -1 || from <= r < |devices|
    ensures r >= 0 ==> r != t && devices[r].entity == e && forall i :: from <= i < r && i != t ==> devices[i].entity != e
    ensures r < 0 ==> forall i :: from <= i < |devices| && i != t ==> devices[i].entity != e
    decreases |devices| - from
  {
    if from == |devices| then -1
    else if from != t && devices[from].entity == e then from
    else Holder(devices, t, e, from + 1)
  }

  /** Device t gets e; whoever had e gets what t had. */
  function Rebound(devices: seq<Device>, t: nat, e: string): (r: seq<Device>)
    requires t < |devices|
    ensures |r| == |devices|
  {
    var other := Holder(devices, t, e, 0);
    var swapped := if other < 0 then devices else devices[other := devices[other].(entity := devices[t].entity)];
    swapped[t := swapped[t].(entity := e)]
  }

  function AssignedData(s: Snapshot, id: string, e: string, now: int): Snapshot {
    var t := Find(s.devices, id);
    if t < 0 || s.devices[t].entity == e then s
    else s.(devices := Rebound(s.devices, t, e), revision := s.revision + 1, updatedAt := now)
  }

  lemma FitApart(devices: seq<Device>, i: nat, j: nat)
    requires DevicesFit(devices) && i < |devices| && j < |devices| && i != j
    ensures DevicesApart(devices[i], devices[j])
  {
    assert DevicesApart(devices[if i < j then i else j], devices[if i < j then j else i]);
  }

  /** In a fitting list, the swap moves exactly two bindings, or one. */
  lemma ReboundPointwise(devices: seq<Device>, t: nat, e: string)
    requires DevicesFit(devices) && t < |devices| && devices[t].entity != e
    ensures forall i :: 0 <= i < |devices| ==>
      Rebound(devices, t, e)[i] == devices[i].(entity :=
        if i == t then e else if devices[i].entity == e then devices[t].entity else devices[i].entity)
  {
    var other := Holder(devices, t, e, 0);
    forall i: nat | i < |devices| && i != t && i != other ensures devices[i].entity != e {
      if other >= 0 {
        FitApart(devices, i, other);
      }
    }
  }

  lemma ReboundFits(devices: seq<Device>, t: nat, e: string)
    requires DevicesFit(devices) && t < |devices| && devices[t].entity != e && HasPrefix(e, SWITCH)
    ensures DevicesFit(Rebound(devices, t, e))
  {
    ReboundPointwise(devices, t, e);
    var r := Rebound(devices, t, e);
    forall i: nat, j: nat | i < j < |r| ensures DevicesApart(r[i], r[j]) {
      FitApart(devices, i, j);
      if i != t { FitApart(devices, i, t); }
      if j != t { FitApart(devices, j, t); }
    }
    assert DeviceOk(devices[t]);
  }

  /** Rebinding keeps the map valid, so the check that follows it cannot fail. */
  lemma AssignKeepsValid(s: Snapshot, id: string, e: string, now: int)
    requires Valid(s) && GoodEntity(e)
    ensures Valid(AssignedData(s, id, e, now))
  {
    var t := Find(s.devices, id);
    if t >= 0 && s.devices[t].entity != e {
      ReboundFits(s.devices, t, e);
    }
  }

  function Entities(devices: seq<Device>): (r: seq<string>)
    ensures |r| == |devices| && forall i :: 0 <= i < |devices| ==> r[i] == devices[i].entity
  {
    seq(|devices|, i requires 0 <= i < |devices| => devices[i].entity)
  }

  lemma SwapIsPermutation(a: seq<string>, b: seq<string>, i: nat, j: nat)
    requires i < |a| == |b| && j < |a| && i != j && b == a[i := a[j]][j := a[i]]
    ensures multiset(a) == multiset(b)
  {
  }

  /** Device t's old switch, and what the list of bindings becomes when it gets e. */
  lemma ReboundEntities(devices: seq<Device>, t: nat, e: string)
    requires DevicesFit(devices) && t < |devices| && devices[t].entity != e
    ensures var was, after, other := Entities(devices), Entities(Rebound(devices, t, e)), Holder(devices, t, e, 0);
      if other < 0 then e !in was && after == was[t := e]
      else was[other] == e && after == was[t := was[other]][other := was[t]]
  {
    ReboundPointwise(devices, t, e);
    var was, after, other := Entities(devices), Entities(Rebound(devices, t, e)), Holder(devices, t, e, 0);
    if other >= 0 {
      forall i: nat | i < |was| ensures after[i] == was[t := was[other]][other := was[t]][i] {
        if i != other { FitApart(devices, i, other); }
      }
    }
  }

  /**
   The bindings after a rebinding: the same ones in another order when the switch was already bound,
   and otherwise the device's old one replaced by the new one.
   */
  lemma AssignPermutes(s: Snapshot, id: string, e: string, now: int)
    requires Valid(s) && Find(s.devices, id) >= 0
    ensures var was, after := Entities(s.devices), Entities(AssignedData(s, id, e, now).devices);
      var had := s.devices[Find(s.devices, id)].entity;
      multiset(after) == if e in was then multiset(was) else multiset(was) - multiset{had} + multiset{e}
  {
    var t := Find(s.devices, id);
    var was, after := Entities(s.devices), Entities(AssignedData(s, id, e, now).devices);
    if s.devices[t].entity != e {
      ReboundEntities(s.devices, t, e);
      var other := Holder(s.devices, t, e, 0);
      if other >= 0 {
        SwapIsPermutation(was, after, t, other);
      }
    } else {
      assert was[t] == e;
    }
  }

  /** The named device gets the switch, and nothing but bindings changes anywhere. */
  lemma AssignTouchesBindingsOnly(s: Snapshot, id: string, e: string, now: int)
    requires Valid(s) && Find(s.devices, id) >= 0
    ensures var after := AssignedData(s, id, e, now);
      && after.devices[Find(s.devices, id)].entity == e
      && |after.devices| == |s.devices| && after.strips == s.strips && after.schema == s.schema
      && forall i :: 0 <= i < |s.devices| ==> after.devices[i] == s.devices[i].(entity := after.devices[i].entity)
  {
    var t := Find(s.devices, id);
    if s.devices[t].entity != e {
      ReboundPointwise(s.devices, t, e);
    }
  }

  lemma ReboundIsUndone(devices: seq<Device>, t: nat, e: string)
    requires DevicesFit(devices) && t < |devices| && devices[t].entity != e && HasPrefix(e, SWITCH)
    ensures Rebound(Rebound(devices, t, e), t, devices[t].entity) == devices
  {
    var mid := Rebound(devices, t, e);
    ReboundPointwise(devices, t, e);
    ReboundFits(devices, t, e);
    ReboundPointwise(mid, t, devices[t].entity);
    var back := Rebound(mid, t, devices[t].entity);
    forall i: nat | i < |back| ensures back[i] == devices[i] {
      if i != t { FitApart(devices, i, t); }
    }
  }

  lemma {:induction false} FindDependsOnIds(a: seq<Device>, b: seq<Device>, id: string)
    requires |a| == |b| && forall i :: 0 <= i < |a| ==> a[i].id == b[i].id
    ensures Find(a, id) == Find(b, id)
  {
  }

  /** Giving the device its old switch back undoes the rebinding, swap or not. */
  lemma AssignIsUndone(s: Snapshot, id: string, e: string, now: int, later: int)
    requires Valid(s) && Find(s.devices, id) >= 0 && GoodEntity(e)
    ensures var had := s.devices[Find(s.devices, id)].entity;
      AssignedData(AssignedData(s, id, e, now), id, had, later).devices == s.devices
  {
    var t := Find(s.devices, id);
    if s.devices[t].entity != e {
      ReboundPointwise(s.devices, t, e);
      ReboundIsUndone(s.devices, t, e);
      FindDependsOnIds(s.devices, Rebound(s.devices, t, e), id);
    }
  }
}
