/**
 The stored equipment map as an object (internal/equipment/store.go), with the copy on disk, and the
 lookup of the physical outlet a device is really plugged into (internal/equipment/outlet.go).
 */
module EquipmentStore {
  import opened Wrappers
  import opened EquipmentModel
  import opened EquipmentSort
  import opened EquipmentAssign
  import opened EquipmentSettings

  function Clone(s: Snapshot): Snapshot {
    s.(devices := BySlot(s.devices))
  }

  /** The snapshot handed out is valid whenever the map is. */
  lemma CloneIsValid(s: Snapshot)
    requires Valid(s)
    ensures Valid(Clone(s)) && InSlotOrder(Clone(s).devices) && multiset(Clone(s).devices) == multiset(s.devices)
  {
    SortPermutes(s.devices);
    SortFits(s.devices);
  }

  method FindDevice(devices: seq<Device>, id: string) returns (target: int)
    ensures target == Find(devices, id)
  {
    for i := 0 to |devices|
      invariant forall k :: 0 <= k < i ==> devices[k].id != id
    {
      if devices[i].id == id { return i; }
    }
    return -1;
  }

  lemma HolderIs(devices: seq<Device>, t: int, e: string, i: nat)
    requires i < |devices| && i != t && devices[i].entity == e
    requires forall k :: 0 <= k < i && k != t ==> devices[k].entity != e
    ensures Holder(devices, t, e, 0) == i
  {
    var h := Holder(devices, t, e, 0);
    assert h < i ==> h == -1;
  }

  class Store {
    var data: Snapshot
    var disk: Option<Snapshot>

    constructor (s: Snapshot)
      requires Valid(s)
      ensures data == s && disk == Some(s)
    {
      data, disk := s, Some(s);
    }

    /** Replaces the file; writable says whether the file operations work. */
    method Save(writable: bool) returns (ok: bool)
      modifies this`disk
      ensures ok == writable && disk == if writable then Some(data) else old(disk)
    {
      if writable { disk := Some(data); }
      return writable;
    }

    /**
     Rebinds one device. The check after the change never fails; but when the file cannot be replaced
     the change is reported as failed and yet stays in memory, with the old map on disk.
     */
    method Assign(id: string, e: string, now: int, writable: bool) returns (r: Result<Snapshot, StoreError>)
      requires Valid(data)
      modifies this
      ensures Valid(data)
      ensures !GoodEntity(e) ==> r == Err(BadEntity) && data == old(data) && disk == old(disk)
      ensures GoodEntity(e) && Find(old(data).devices, id) < 0 ==> r == Err(Unknown) && data == old(data) && disk == old(disk)
      ensures GoodEntity(e) && Find(old(data).devices, id) >= 0 ==>
        var same := old(data).devices[Find(old(data).devices, id)].entity == e;
        && data == AssignedData(old(data), id, e, now)
        && r == (if same || writable then Ok(Clone(data)) else Err(NotSaved))
        && disk == (if !same && writable then Some(data) else old(disk))
    {
      if !GoodEntity(e) { return Err(BadEntity); }
      var target := FindDevice(data.devices, id);
      if target < 0 { return Err(Unknown); }
      var had := data.devices[target].entity;
      if had == e { return Ok(Clone(data)); }
      AssignKeepsValid(data, id, e, now);
      ghost var start := data;
      var devices := data.devices;
      var i := 0;
      while i < |devices|
        invariant 0 <= i <= |devices| && data == start && devices == start.devices
        invariant forall k :: 0 <= k < i && k != target ==> start.devices[k].entity != e
      {
        if i != target && devices[i].entity == e {
          HolderIs(devices, target, e, i);
          devices := devices[i := devices[i].(entity := had)];
          break;
        }
        i := i + 1;
      }
      devices := devices[target := devices[target].(entity := e)];
      assert devices == Rebound(start.devices, target, e);
      data := data.(devices := devices, revision := data.revision + 1, updatedAt := now);
      var valid := Validate(data);
      if !valid { return Err(Invalid); }
      var ok := Save(writable);
      if !ok { return Err(NotSaved); }
      return Ok(Clone(data));
    }

    method TableOfDevices(devices: seq<DeviceSettings>) returns (r: Result<DeviceTable, StoreError>)
      ensures r == DeviceTableFrom(devices)
    {
      var m: DeviceTable := map[];
      ghost var ds := CleanDevices(devices);
      for k := 0 to |devices|
        invariant Collect(ds[..k], DeviceKey, DeviceFault) == Ok(m)
      {
        var d := CleanDevice(devices[k]);
        assert ds[..k + 1][..k] == ds[..k] && ds[..k + 1][k] == d;
        if d.id == "" || d.id in m {
          EarlyFault(ds, k, DeviceKey, DeviceFault);
          return Err(BadId);
        }
        if d.displayName == "" || |d.displayName| > 60 {
          EarlyFault(ds, k, DeviceKey, DeviceFault);
          return Err(BadName);
        }
        m := m[d.id := d];
      }
      assert ds[..|devices|] == ds;
      return Ok(m);
    }

    method TableOfStrips(strips: seq<StripSettings>) returns (r: Result<StripTable, StoreError>)
      ensures r == StripTableFrom(strips)
    {
      var m: StripTable := map[];
      ghost var ss := CleanStrips(strips);
      for k := 0 to |strips|
        invariant Collect(ss[..k], StripKey, StripFault) == Ok(m)
      {
        var d := CleanStrip(strips[k]);
        assert ss[..k + 1][..k] == ss[..k] && ss[..k + 1][k] == d;
        if d.id == "" || d.id in m {
          EarlyFault(ss, k, StripKey, StripFault);
          return Err(BadId);
        }
        if d.poll < 1 || d.poll > 3600 {
          EarlyFault(ss, k, StripKey, StripFault);
          return Err(BadPoll);
        }
        m := m[d.id := d];
      }
      assert ss[..|strips|] == ss;
      return Ok(m);
    }

    /** All settings at once: on any failure, the save included, memory and disk are as they were. */
    method UpdateSettings(devices: seq<DeviceSettings>, strips: seq<StripSettings>, now: int, writable: bool)
      returns (r: Result<Snapshot, StoreError>)
      requires Valid(data)
      modifies this
      ensures Valid(data)
      ensures var next := NewSettings(old(data), devices, strips, now);
        && data == (if next.Ok? && writable then next.value else old(data))
        && disk == (if next.Ok? && writable then Some(data) else old(disk))
        && r == (if next.Err? then Err(next.error) else if writable then Ok(Clone(data)) else Err(NotSaved))
    {
      if |devices| != |data.devices| || |strips| != |data.strips| { return Err(BadCount); }
      var next := Clone(data);
      ghost var base := next.devices;
      var byId := TableOfDevices(devices);
      if byId.Err? { return Err(byId.error); }
      for i := 0 to |next.devices|
        invariant |next.devices| == |base| && next == Clone(data).(devices := next.devices)
        invariant forall k :: 0 <= k < i ==> base[k].id in byId.value && next.devices[k] == Configured(base[k], byId.value)
        invariant forall k :: i <= k < |base| ==> next.devices[k] == base[k]
      {
        var d := next.devices[i];
        if d.id !in byId.value { return Err(Missing); }
        next := next.(devices := next.devices[i := Configured(d, byId.value)]);
      }
      assert next.devices == ConfigureAll(base, byId.value);
      var stripById := TableOfStrips(strips);
      if stripById.Err? { return Err(stripById.error); }
      for i := 0 to |next.strips|
        invariant |next.strips| == |data.strips|
        invariant next == Clone(data).(devices := ConfigureAll(base, byId.value), strips := next.strips)
        invariant forall k :: 0 <= k < i ==> data.strips[k].id in stripById.value && next.strips[k] == Polled(data.strips[k], stripById.value)
        invariant forall k :: i <= k < |data.strips| ==> next.strips[k] == data.strips[k]
      {
        var p := next.strips[i];
        if p.id !in stripById.value { return Err(Missing); }
        next := next.(strips := next.strips[i := Polled(p, stripById.value)]);
      }
      assert next.strips == PollAll(data.strips, stripById.value);
      next := next.(revision := next.revision + 1, updatedAt := now);
      assert next == Settled(data, byId.value, stripById.value, now);
      var valid := Validate(next);
      if !valid { return Err(Invalid); }
      var previous := data;
      data := next;
      var ok := Save(writable);
      if !ok {
        data := previous;
        return Err(NotSaved);
      }
      return Ok(Clone(data));
    }
  }

  /** Once a prefix is faulty, the whole list is faulty in the same way. */
  lemma {:induction false} FaultStays<T>(ins: seq<T>, k: nat, key: T -> string, fault: T -> Option<StoreError>)
    requires k <= |ins| && Collect(ins[..k], key, fault).Err?
    ensures Collect(ins, key, fault) == Collect(ins[..k], key, fault)
    decreases |ins|
  {
    if k < |ins| {
      var front := ins[..|ins| - 1];
      assert front[..k] == ins[..k];
      FaultStays(front, k, key, fault);
    } else {
      assert ins[..k] == ins;
    }
  }

  lemma EarlyFault<T>(ins: seq<T>, k: nat, key: T -> string, fault: T -> Option<StoreError>)
    requires k < |ins| && Collect(ins[..k], key, fault).Ok?
    requires key(ins[k]) == "" || key(ins[k]) in Collect(ins[..k], key, fault).value || fault(ins[k]).Some?
    ensures Collect(ins, key, fault).Err?
    ensures Collect(ins, key, fault).error ==
      if key(ins[k]) == "" || key(ins[k]) in Collect(ins[..k], key, fault).value then BadId else fault(ins[k]).value
  {
    assert ins[..k + 1][..k] == ins[..k];
    FaultStays(ins, k + 1, key, fault);
  }
}
