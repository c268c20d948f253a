/**
 The equipment map (internal/equipment/store.go): power strips, the devices plugged into their
 slots, and the global check every stored map passes.
 */
module EquipmentModel {
  datatype Device = Device(
    id: string, displayName: string, slot: int, entity: string, critical: bool, highFrequency: bool)

  datatype PowerStrip = PowerStrip(id: string, displayName: string, slotStart: int, slotEnd: int, poll: int)

  datatype Snapshot = Snapshot(
    schema: int, revision: int, updatedAt: int, strips: seq<PowerStrip>, devices: seq<Device>)

  const SLOTS := 18
  const SWITCH := "switch."

  predicate HasPrefix(s: string, p: string) {
    p <= s
  }

  // ---- validity, stated over the whole map ----

  predicate Covers(strip: PowerStrip, slot: int) {
    strip.slotStart <= slot <= strip.slotEnd
  }

  predicate StripOk(strip: PowerStrip) {
    strip.id != "" && strip.displayName != "" && 1 <= strip.slotStart <= strip.slotEnd <= SLOTS
  }

  predicate StripsApart(a: PowerStrip, b: PowerStrip) {
    a.id != b.id && (a.slotEnd < b.slotStart || b.slotEnd < a.slotStart)
  }

  predicate StripsFit(strips: seq<PowerStrip>) {
    && (forall i :: 0 <= i < |strips| ==> StripOk(strips[i]))
    && (forall i, j :: 0 <= i < j < |strips| ==> StripsApart(strips[i], strips[j]))
  }

  predicate Covered(strips: seq<PowerStrip>, slot: int) {
    exists i :: 0 <= i < |strips| && Covers(strips[i], slot)
  }

  predicate DeviceOk(d: Device) {
    d.id != "" && 1 <= d.slot <= SLOTS && HasPrefix(d.entity, SWITCH)
  }

  predicate DevicesApart(a: Device, b: Device) {
    a.id != b.id && a.slot != b.slot && a.entity != b.entity
  }

  predicate DevicesFit(devices: seq<Device>) {
    && (forall i :: 0 <= i < |devices| ==> DeviceOk(devices[i]))
    && (forall i, j :: 0 <= i < j < |devices| ==> DevicesApart(devices[i], devices[j]))
  }

  predicate Valid(s: Snapshot) {
    && s.schema == 2 && |s.strips| == 3 && |s.devices| == SLOTS
    && StripsFit(s.strips) && (forall slot :: 1 <= slot <= SLOTS ==> Covered(s.strips, slot))
    && DevicesFit(s.devices)
  }

  // ---- the check ----

  function Range(n: nat): (r: set<int>)
    ensures |r| == n && forall x :: x in r <==> 1 <= x <= n
  {
    if n == 0 then {} else Range(n - 1) + {n}
  }

  lemma {:induction false} SubsetSize<T>(a: set<T>, b: set<T>)
    requires a <= b
    ensures |a| <= |b|
    ensures |a| == |b| ==> a == b
  {
    if a != {} {
      var x :| x in a;
      SubsetSize(a - {x}, b - {x});
      assert a - {x} + {x} == a && b - {x} + {x} == b;
    }
  }

  lemma SlotsAllCovered(covered: set<int>)
    requires forall x :: x in covered ==> 1 <= x <= SLOTS
    ensures |covered| == SLOTS <==> forall x :: 1 <= x <= SLOTS ==> x in covered
  {
    SubsetSize(covered, Range(SLOTS));
    if forall x :: 1 <= x <= SLOTS ==> x in covered {
      assert covered == Range(SLOTS);
    }
  }

  /** The slots of one more strip; ok is false when one of them is taken already. */
  method CoverStrip(strip: PowerStrip, before: set<int>) returns (ok: bool, covered: set<int>)
    ensures ok <==> forall x :: Covers(strip, x) ==> x !in before
    ensures ok ==> forall x :: x in covered <==> x in before || Covers(strip, x)
  {
    covered := before;
    var slot := strip.slotStart;
    while slot <= strip.slotEnd
      invariant strip.slotStart <= slot && (slot <= strip.slotEnd + 1 || slot == strip.slotStart)
      invariant forall x :: x in covered <==> x in before || strip.slotStart <= x < slot
      invariant forall x :: strip.slotStart <= x < slot ==> x !in before
    {
      if slot in covered {
        assert Covers(strip, slot);
        return false, covered;
      }
      covered := covered + {slot};
      slot := slot + 1;
    }
    return true, covered;
  }

  method CheckStrips(strips: seq<PowerStrip>) returns (ok: bool)
    ensures ok <==> StripsFit(strips) && forall slot :: 1 <= slot <= SLOTS ==> Covered(strips, slot)
  {
    var ids: set<string>, covered: set<int> := {}, {};
    for k := 0 to |strips|
      invariant StripsFit(strips[..k])
      invariant forall id :: id in ids <==> exists j :: 0 <= j < k && strips[j].id == id
      invariant forall x :: x in covered <==> Covered(strips[..k], x)
    {
      var strip := strips[k];
      if strip.id == "" || strip.displayName == "" || strip.id in ids || strip.slotStart < 1 || strip.slotEnd > 18
         || strip.slotStart > strip.slotEnd {
        return false;
      }
      var apart, next := CoverStrip(strip, covered);
      if !apart {
        OverlapIsUnfit(strips, k);
        return false;
      }
      FitsOneMore(strips, k);
      covered := next;
      ids := ids + {strip.id};
    }
    assert strips[..|strips|] == strips;
    CoveredInRange(strips);
    SlotsAllCovered(covered);
    return |covered| == 18;
  }

  lemma CoveredInRange(strips: seq<PowerStrip>)
    requires StripsFit(strips)
    ensures forall x :: Covered(strips, x) ==> 1 <= x <= SLOTS
  {
    forall x | Covered(strips, x) ensures 1 <= x <= SLOTS {
      var i :| 0 <= i < |strips| && Covers(strips[i], x);
      assert StripOk(strips[i]);
    }
  }

  lemma OverlapIsUnfit(strips: seq<PowerStrip>, k: nat)
    requires k < |strips| && exists x :: Covers(strips[k], x) && Covered(strips[..k], x)
    ensures !StripsFit(strips)
  {
    var x :| Covers(strips[k], x) && Covered(strips[..k], x);
    var i :| 0 <= i < k && Covers(strips[i], x);
    assert !StripsApart(strips[i], strips[k]);
  }

  lemma FitsOneMore(strips: seq<PowerStrip>, k: nat)
    requires k < |strips| && StripsFit(strips[..k]) && StripOk(strips[k])
    requires forall j :: 0 <= j < k ==> strips[j].id != strips[k].id
    requires forall x :: Covers(strips[k], x) ==> !Covered(strips[..k], x)
    ensures StripsFit(strips[..k + 1])
    ensures forall x :: Covered(strips[..k + 1], x) <==> Covered(strips[..k], x) || Covers(strips[k], x)
  {
    var p, q := strips[..k], strips[..k + 1];
    forall j | 0 <= j < k ensures StripsApart(q[j], q[k]) {
      var a, b := p[j], strips[k];
      assert StripOk(a);
      var x := if a.slotStart < b.slotStart then b.slotStart else a.slotStart;
      assert Covers(a, x) && Covers(b, x) ==> Covered(p, x);
    }
    forall x ensures Covered(q, x) <==> Covered(p, x) || Covers(strips[k], x) {
      if Covered(p, x) {
        var i :| 0 <= i < k && Covers(p[i], x);
        assert Covers(q[i], x);
      }
      if Covers(strips[k], x) {
        assert Covers(q[k], x);
      }
    }
  }

  method CheckDevices(devices: seq<Device>) returns (ok: bool)
    ensures ok <==> DevicesFit(devices)
  {
    var ids: set<string>, entities: set<string>, slots: set<int> := {}, {}, {};
    for k := 0 to |devices|
      invariant DevicesFit(devices[..k])
      invariant forall x :: x in ids <==> exists j :: 0 <= j < k && devices[j].id == x
      invariant forall x :: x in entities <==> exists j :: 0 <= j < k && devices[j].entity == x
      invariant forall x :: x in slots <==> exists j :: 0 <= j < k && devices[j].slot == x
    {
      var d := devices[k];
      if d.id == "" || d.id in ids { UnfitDevice(devices, k); return false; }
      if d.slot < 1 || d.slot > 18 || d.slot in slots { UnfitDevice(devices, k); return false; }
      if !HasPrefix(d.entity, "switch.") || d.entity in entities { UnfitDevice(devices, k); return false; }
      ids, entities, slots := ids + {d.id}, entities + {d.entity}, slots + {d.slot};
    }
    assert devices[..|devices|] == devices;
    return true;
  }

  lemma UnfitDevice(devices: seq<Device>, k: nat)
    requires k < |devices|
    requires !DeviceOk(devices[k]) || exists j :: 0 <= j < k && !DevicesApart(devices[j], devices[k])
    ensures !DevicesFit(devices)
  {
  }

  /** The check accepts exactly the valid maps. */
  method Validate(s: Snapshot) returns (ok: bool)
    ensures ok <==> Valid(s)
  {
    if s.schema != 2 || |s.strips| != 3 || |s.devices| != 18 { return false; }
    ok := CheckStrips(s.strips);
    if !ok { return false; }
    ok := CheckDevices(s.devices);
  }
}
