/**
 Replacing every editable setting of the equipment map at once (UpdateSettings in
 internal/equipment/store.go): when it is accepted, and what the new map is.
 */
module EquipmentSettings {
  import opened Wrappers
  import opened EquipmentModel
  import opened EquipmentSort

  datatype StoreError = BadEntity | Unknown | BadCount | BadId | BadName | BadPoll | Missing | Invalid | NotSaved

  datatype DeviceSettings = DeviceSettings(id: string, displayName: string, entity: string, highFrequency: bool)
  datatype StripSettings = StripSettings(id: string, poll: int)

  // ---- white space, as strings.TrimSpace sees it ----

  predicate Space(c: char) {
    || '\t' <= c <= '\r' || c == ' ' || c == '\U{85}' || c == '\U{A0}' || c == '\U{1680}'
    || '\U{2000}' <= c <= '\U{200A}' || c == '\U{2028}' || c == '\U{2029}' || c == '\U{202F}'
    || c == '\U{205F}' || c == '\U{3000}'
  }

  function TrimLeft(s: string): string {
    if s != "" && Space(s[0]) then TrimLeft(s[1..]) else s
  }

  function TrimRight(s: string): string {
    if s != "" && Space(s[|s| - 1]) then TrimRight(s[..|s| - 1]) else s
  }

  function Trim(s: string): string {
    TrimRight(TrimLeft(s))
  }

  /** Only white space from i up to j. */
  predicate SpaceBetween(s: string, i: nat, j: nat)
    requires j <= |s|
  {
    forall k :: i <= k < j ==> Space(s[k])
  }

  lemma {:induction false} LeftTrimmed(s: string) returns (a: nat)
    ensures a <= |s| && TrimLeft(s) == s[a..] && SpaceBetween(s, 0, a) && (a < |s| ==> !Space(s[a]))
  {
    a := 0;
    if s != "" && Space(s[0]) {
      var tail := s[1..];
      var n := LeftTrimmed(tail);
      a := n + 1;
      assert tail[n..] == s[a..];
      forall k | 0 <= k < a ensures Space(s[k]) {
        assert k > 0 ==> s[k] == tail[k - 1];
      }
    }
  }

  lemma {:induction false} RightTrimmed(s: string) returns (b: nat)
    ensures b <= |s| && TrimRight(s) == s[..b] && SpaceBetween(s, b, |s|) && (b > 0 ==> !Space(s[b - 1]))
  {
    b := |s|;
    if s != "" && Space(s[|s| - 1]) {
      var front := s[..|s| - 1];
      b := RightTrimmed(front);
      assert front[..b] == s[..b];
      forall k | b <= k < |s| ensures Space(s[k]) {
        assert k < |front| ==> s[k] == front[k];
      }
    }
  }

  /** Trimming takes white space off both ends: only that, and all of it. */
  lemma TrimTakesSpaceOff(s: string) returns (a: nat, b: nat)
    ensures a <= b <= |s| && Trim(s) == s[a..b] && SpaceBetween(s, 0, a) && SpaceBetween(s, b, |s|)
    ensures a < b ==> !Space(s[a]) && !Space(s[b - 1])
  {
    a := LeftTrimmed(s);
    var rest := s[a..];
    var c := RightTrimmed(rest);
    b := a + c;
    assert rest[..c] == s[a..b];
    forall k | b <= k < |s| ensures Space(s[k]) {
      assert s[k] == rest[k - a];
    }
    if c > 0 { assert rest[c - 1] == s[b - 1]; }
  }

  function CleanDevices(ins: seq<DeviceSettings>): (r: seq<DeviceSettings>)
    ensures |r| == |ins|
    ensures forall i :: 0 <= i < |ins| ==> r[i] == CleanDevice(ins[i])
  {
    seq(|ins|, i requires 0 <= i < |ins| => CleanDevice(ins[i]))
  }

  function CleanDevice(d: DeviceSettings): DeviceSettings {
    DeviceSettings(Trim(d.id), Trim(d.displayName), Trim(d.entity), d.highFrequency)
  }

  function CleanStrips(ins: seq<StripSettings>): (r: seq<StripSettings>)
    ensures |r| == |ins|
    ensures forall i :: 0 <= i < |ins| ==> r[i] == CleanStrip(ins[i])
  {
    seq(|ins|, i requires 0 <= i < |ins| => CleanStrip(ins[i]))
  }

  function CleanStrip(s: StripSettings): StripSettings {
    StripSettings(Trim(s.id), s.poll)
  }

  // ---- what is computed ----

  /** The cleaned inputs by id; the first bad one decides the error. */
  function Collect<T>(ins: seq<T>, key: T -> string, fault: T -> Option<StoreError>): Result<map<string, T>, StoreError> {
    if ins == [] then Ok(map[])
    else
      var r := Collect(ins[..|ins| - 1], key, fault);
      var d := ins[|ins| - 1];
      if r.Err? then r
      else if key(d) == "" || key(d) in r.value then Err(BadId)
      else if fault(d).Some? then Err(fault(d).value)
      else Ok(r.value[key(d) := d])
  }

  type DeviceTable = map<string, DeviceSettings>
  type StripTable = map<string, StripSettings>

  function DeviceKey(d: DeviceSettings): string { d.id }
  function StripKey(s: StripSettings): string { s.id }

  function DeviceFault(d: DeviceSettings): Option<StoreError> {
    if d.displayName == "" || |d.displayName| > 60 then Some(BadName) else None
  }

  function StripFault(s: StripSettings): Option<StoreError> {
    if s.poll < 1 || s.poll > 3600 then Some(BadPoll) else None
  }

  function Configured(d: Device, m: DeviceTable): Device
    requires d.id in m
  {
    d.(displayName := m[d.id].displayName, entity := m[d.id].entity, highFrequency := m[d.id].highFrequency)
  }

  function ConfigureAll(devices: seq<Device>, m: DeviceTable): (r: seq<Device>)
    requires forall i :: 0 <= i < |devices| ==> devices[i].id in m
    ensures |r| == |devices| && forall i :: 0 <= i < |devices| ==> r[i] == Configured(devices[i], m)
  {
    seq(|devices|, i requires 0 <= i < |devices| => Configured(devices[i], m))
  }

  function Polled(s: PowerStrip, m: StripTable): PowerStrip
    requires s.id in m
  {
    s.(poll := m[s.id].poll)
  }

  function PollAll(strips: seq<PowerStrip>, m: StripTable): (r: seq<PowerStrip>)
    requires forall i :: 0 <= i < |strips| ==> strips[i].id in m
    ensures |r| == |strips| && forall i :: 0 <= i < |strips| ==> r[i] == Polled(strips[i], m)
  {
    seq(|strips|, i requires 0 <= i < |strips| => Polled(strips[i], m))
  }

  predicate AllKnown(devices: seq<Device>, m: DeviceTable) {
    forall i :: 0 <= i < |devices| ==> devices[i].id in m
  }

  predicate StripsKnown(strips: seq<PowerStrip>, m: StripTable) {
    forall i :: 0 <= i < |strips| ==> strips[i].id in m
  }

  function Settled(s: Snapshot, dm: DeviceTable, sm: StripTable, now: int): Snapshot
    requires AllKnown(BySlot(s.devices), dm) && StripsKnown(s.strips, sm)
  {
    Snapshot(s.schema, s.revision + 1, now, PollAll(s.strips, sm), ConfigureAll(BySlot(s.devices), dm))
  }

  function Combine(s: Snapshot, dm: Result<DeviceTable, StoreError>, sm: Result<StripTable, StoreError>, now: int):
      Result<Snapshot, StoreError>
  {
    if dm.Err? then Err(dm.error)
    else if !AllKnown(BySlot(s.devices), dm.value) then Err(Missing)
    else if sm.Err? then Err(sm.error)
    else if !StripsKnown(s.strips, sm.value) then Err(Missing)
    else if !Valid(Settled(s, dm.value, sm.value, now)) then Err(Invalid)
    else Ok(Settled(s, dm.value, sm.value, now))
  }

  function DeviceTableFrom(devices: seq<DeviceSettings>): Result<DeviceTable, StoreError> {
    Collect(CleanDevices(devices), DeviceKey, DeviceFault)
  }

  function StripTableFrom(strips: seq<StripSettings>): Result<StripTable, StoreError> {
    Collect(CleanStrips(strips), StripKey, StripFault)
  }

  function NewSettings(s: Snapshot, devices: seq<DeviceSettings>, strips: seq<StripSettings>, now: int): Result<Snapshot, StoreError> {
    if |devices| != |s.devices| || |strips| != |s.strips| then Err(BadCount)
    else Combine(s, DeviceTableFrom(devices), StripTableFrom(strips), now)
  }

  // ---- the tables ----

  predicate InputOk<T>(d: T, key: T -> string, fault: T -> Option<StoreError>) {
    key(d) != "" && fault(d).None?
  }

  predicate AllOk<T>(ins: seq<T>, key: T -> string, fault: T -> Option<StoreError>) {
    forall i :: 0 <= i < |ins| ==> InputOk(ins[i], key, fault)
  }

  predicate Distinct<T>(ins: seq<T>, key: T -> string) {
    forall i, j :: 0 <= i < j < |ins| ==> key(ins[i]) != key(ins[j])
  }

  predicate Named<T>(ins: seq<T>, key: T -> string, id: string) {
    exists i :: 0 <= i < |ins| && key(ins[i]) == id
  }

  predicate TableOf<T(==)>(ins: seq<T>, key: T -> string, m: map<string, T>) {
    && (forall i :: 0 <= i < |ins| ==> key(ins[i]) in m && m[key(ins[i])] == ins[i])
    && (forall id :: id in m ==> Named(ins, key, id))
  }

  /** Collecting succeeds exactly on good inputs with distinct ids, and keeps each of them. */
  lemma {:induction false} CollectExactly<T>(ins: seq<T>, key: T -> string, fault: T -> Option<StoreError>)
    ensures Collect(ins, key, fault).Ok? <==> Distinct(ins, key) && AllOk(ins, key, fault)
    ensures Collect(ins, key, fault).Ok? ==> TableOf(ins, key, Collect(ins, key, fault).value)
  {
    if ins != [] {
      var front, d := ins[..|ins| - 1], ins[|ins| - 1];
      CollectExactly(front, key, fault);
      assert Distinct(ins, key) ==> Distinct(front, key);
      assert AllOk(ins, key, fault) ==> AllOk(front, key, fault) && InputOk(d, key, fault);
      if Collect(front, key, fault).Ok? {
        CollectOneMore(ins, key, fault);
      }
    }
  }

  lemma CollectOneMore<T>(ins: seq<T>, key: T -> string, fault: T -> Option<StoreError>)
    requires ins != []
    requires var front := ins[..|ins| - 1];
      Collect(front, key, fault).Ok? && TableOf(front, key, Collect(front, key, fault).value)
      && Distinct(front, key) && AllOk(front, key, fault)
    ensures Collect(ins, key, fault).Ok? <==> Distinct(ins, key) && AllOk(ins, key, fault)
    ensures Collect(ins, key, fault).Ok? ==> TableOf(ins, key, Collect(ins, key, fault).value)
  {
    var front, d := ins[..|ins| - 1], ins[|ins| - 1];
    var m := Collect(front, key, fault).value;
    assert ins == front + [d];
    if key(d) in m {
      RepeatedKey(front, d, key, m);
    } else if InputOk(d, key, fault) {
      TableExtended(front, d, key, m);
    } else {
      assert !InputOk(ins[|ins| - 1], key, fault);
    }
  }

  lemma RepeatedKey<T>(front: seq<T>, d: T, key: T -> string, m: map<string, T>)
    requires TableOf(front, key, m) && key(d) in m
    ensures !Distinct(front + [d], key)
  {
    assert Named(front, key, key(d));
    var i :| 0 <= i < |front| && key(front[i]) == key(d);
    assert key((front + [d])[i]) == key((front + [d])[|front|]);
  }

  lemma TableExtended<T>(front: seq<T>, d: T, key: T -> string, m: map<string, T>)
    requires TableOf(front, key, m) && key(d) !in m
    ensures TableOf(front + [d], key, m[key(d) := d])
    ensures Distinct(front, key) ==> Distinct(front + [d], key)
  {
    var ins, m' := front + [d], m[key(d) := d];
    forall i | 0 <= i < |ins| ensures key(ins[i]) in m' && m'[key(ins[i])] == ins[i] {
      if i < |front| {
        assert ins[i] == front[i];
      }
    }
    forall id | id in m' ensures Named(ins, key, id) {
      if id in m {
        assert Named(front, key, id);
        var i :| 0 <= i < |front| && key(front[i]) == id;
        assert key(ins[i]) == id;
      } else {
        assert key(ins[|front|]) == id;
      }
    }
  }

  // ---- inputs and devices match one to one ----

  predicate NoRepeats(a: seq<string>) {
    forall i, j :: 0 <= i < j < |a| ==> a[i] != a[j]
  }

  lemma {:induction false} NoRepeatsSize(a: seq<string>)
    requires NoRepeats(a)
    ensures |(set x | x in a)| == |a|
  {
    if a == [] {
      assert (set x | x in a) == {};
    } else {
      var front, last := a[..|a| - 1], a[|a| - 1];
      NoRepeatsSize(front);
      assert (set x | x in a) == (set x | x in front) + {last};
    }
  }

  /** As many inputs as devices, every device named by one of them: then every input names a device. */
  lemma Pigeonhole(a: seq<string>, b: seq<string>)
    requires NoRepeats(a) && NoRepeats(b) && |a| == |b| && forall x :: x in a ==> x in b
    ensures forall x :: x in b ==> x in a
  {
    NoRepeatsSize(a);
    NoRepeatsSize(b);
    var x, y := set k | k in a, set k | k in b;
    SubsetSize(x, y);
    assert x == y;
    assert forall k :: k in b ==> k in y && k in x;
  }

  function Keys<T>(ins: seq<T>, key: T -> string): (r: seq<string>)
    ensures |r| == |ins| && forall i :: 0 <= i < |ins| ==> r[i] == key(ins[i])
  {
    seq(|ins|, i requires 0 <= i < |ins| => key(ins[i]))
  }

  function Ids(devices: seq<Device>): (r: seq<string>)
    ensures |r| == |devices| && forall i :: 0 <= i < |devices| ==> r[i] == devices[i].id
  {
    seq(|devices|, i requires 0 <= i < |devices| => devices[i].id)
  }

  predicate AllNamed(devices: seq<Device>, ds: seq<DeviceSettings>) {
    forall i :: 0 <= i < |devices| ==> Named(ds, DeviceKey, devices[i].id)
  }

  lemma EveryInputIsUsed(base: seq<Device>, ds: seq<DeviceSettings>, j: nat) returns (i: nat)
    requires DevicesFit(base) && |base| == |ds| && Distinct(ds, DeviceKey) && AllNamed(base, ds) && j < |ds|
    ensures i < |base| && base[i].id == ds[j].id
  {
    var a, b := Ids(base), Keys(ds, DeviceKey);
    forall x | x in a ensures x in b {
      var k :| 0 <= k < |a| && a[k] == x;
      assert Named(ds, DeviceKey, base[k].id);
      var n :| 0 <= n < |ds| && DeviceKey(ds[n]) == x;
      assert b[n] == x;
    }
    forall k, n | 0 <= k < n < |a| ensures a[k] != a[n] {
      assert DevicesApart(base[k], base[n]);
    }
    Pigeonhole(a, b);
    assert b[j] in b;
    i :| 0 <= i < |a| && a[i] == b[j];
  }

  lemma SortedNames(devices: seq<Device>, ds: seq<DeviceSettings>)
    ensures AllNamed(devices, ds) <==> AllNamed(BySlot(devices), ds)
  {
    if AllNamed(devices, ds) {
      forall i: nat | i < |devices| ensures Named(ds, DeviceKey, BySlot(devices)[i].id) {
        var j := SortedFrom(devices, i);
      }
    }
    if AllNamed(BySlot(devices), ds) {
      forall i: nat | i < |devices| ensures Named(ds, DeviceKey, devices[i].id) {
        var j := SortedTo(devices, i);
        assert Named(ds, DeviceKey, BySlot(devices)[j].id);
      }
    }
  }

  predicate EntitiesOk(ds: seq<DeviceSettings>) {
    && (forall j :: 0 <= j < |ds| ==> HasPrefix(ds[j].entity, SWITCH))
    && (forall j, k :: 0 <= j < k < |ds| ==> ds[j].entity != ds[k].entity)
  }

  lemma InTable(base: seq<Device>, ds: seq<DeviceSettings>, m: DeviceTable)
    requires TableOf(ds, DeviceKey, m)
    ensures AllNamed(base, ds) <==> AllKnown(base, m)
  {
    forall i | 0 <= i < |base| ensures Named(ds, DeviceKey, base[i].id) <==> base[i].id in m {
    }
  }

  /** Which input a configured device comes from. */
  lemma FromInput(base: seq<Device>, ds: seq<DeviceSettings>, m: DeviceTable, i: nat) returns (j: nat)
    requires TableOf(ds, DeviceKey, m) && i < |base| && base[i].id in m
    ensures j < |ds| && ds[j].id == base[i].id && Configured(base[i], m) ==
      base[i].(displayName := ds[j].displayName, entity := ds[j].entity, highFrequency := ds[j].highFrequency)
  {
    assert Named(ds, DeviceKey, base[i].id);
    j :| 0 <= j < |ds| && DeviceKey(ds[j]) == base[i].id;
  }

  lemma ConfiguredFits(base: seq<Device>, ds: seq<DeviceSettings>, m: DeviceTable)
    requires DevicesFit(base) && TableOf(ds, DeviceKey, m) && EntitiesOk(ds)
    requires forall i :: 0 <= i < |base| ==> base[i].id in m
    ensures DevicesFit(ConfigureAll(base, m))
  {
    var r := ConfigureAll(base, m);
    forall i: nat | i < |r| ensures DeviceOk(r[i]) {
      var j := FromInput(base, ds, m, i);
      assert DeviceOk(base[i]);
    }
    forall i: nat, k: nat | i < k < |r| ensures DevicesApart(r[i], r[k]) {
      assert DevicesApart(base[i], base[k]);
      var j := FromInput(base, ds, m, i);
      var n := FromInput(base, ds, m, k);
    }
  }

  lemma FitMeansEntitiesOk(base: seq<Device>, ds: seq<DeviceSettings>, m: DeviceTable)
    requires DevicesFit(base) && TableOf(ds, DeviceKey, m) && Distinct(ds, DeviceKey) && |base| == |ds| && AllNamed(base, ds)
    requires forall i :: 0 <= i < |base| ==> base[i].id in m
    requires DevicesFit(ConfigureAll(base, m))
    ensures EntitiesOk(ds)
  {
    var r := ConfigureAll(base, m);
    forall j: nat | j < |ds| ensures HasPrefix(ds[j].entity, SWITCH) {
      var i := EveryInputIsUsed(base, ds, j);
      assert DeviceOk(r[i]) && DeviceKey(ds[j]) == base[i].id;
    }
    forall j: nat, k: nat | j < k < |ds| ensures ds[j].entity != ds[k].entity {
      var i := EveryInputIsUsed(base, ds, j);
      var n := EveryInputIsUsed(base, ds, k);
      assert DeviceKey(ds[j]) != DeviceKey(ds[k]);
      assert DevicesApart(r[if i < n then i else n], r[if i < n then n else i]);
    }
  }

  // ---- main results ----

  predicate StripsNamed(strips: seq<PowerStrip>, ss: seq<StripSettings>) {
    forall i :: 0 <= i < |strips| ==> Named(ss, StripKey, strips[i].id)
  }

  /** What the caller can check beforehand, on the inputs with white space removed. */
  predicate Acceptable(s: Snapshot, ds: seq<DeviceSettings>, ss: seq<StripSettings>) {
    && |ds| == |s.devices| && |ss| == |s.strips|
    && Distinct(ds, DeviceKey) && AllOk(ds, DeviceKey, DeviceFault) && AllNamed(s.devices, ds)
    && Distinct(ss, StripKey) && AllOk(ss, StripKey, StripFault) && StripsNamed(s.strips, ss)
    && EntitiesOk(ds)
  }

  lemma PolledValid(s: Snapshot, sm: StripTable)
    requires Valid(s) && forall i :: 0 <= i < |s.strips| ==> s.strips[i].id in sm
    ensures var r := PollAll(s.strips, sm); StripsFit(r) && forall slot :: 1 <= slot <= SLOTS ==> Covered(r, slot)
  {
    var r := PollAll(s.strips, sm);
    forall i, j | 0 <= i < j < |r| ensures StripsApart(r[i], r[j]) {
      assert StripsApart(s.strips[i], s.strips[j]);
    }
    forall slot | 1 <= slot <= SLOTS ensures Covered(r, slot) {
      assert Covered(s.strips, slot);
      var i :| 0 <= i < |s.strips| && Covers(s.strips[i], slot);
      assert Covers(r[i], slot);
    }
    forall i | 0 <= i < |r| ensures StripOk(r[i]) {
      assert StripOk(s.strips[i]);
    }
  }

  lemma SettledValid(s: Snapshot, ds: seq<DeviceSettings>, dm: DeviceTable, sm: StripTable, now: int)
    requires Valid(s) && |ds| == |s.devices| && TableOf(ds, DeviceKey, dm) && Distinct(ds, DeviceKey)
    requires AllNamed(BySlot(s.devices), ds)
    requires AllKnown(BySlot(s.devices), dm) && StripsKnown(s.strips, sm)
    ensures Valid(Settled(s, dm, sm, now)) <==> EntitiesOk(ds)
  {
    var base := BySlot(s.devices);
    SortFits(s.devices);
    PolledValid(s, sm);
    if EntitiesOk(ds) {
      ConfiguredFits(base, ds, dm);
    }
    if DevicesFit(ConfigureAll(base, dm)) {
      FitMeansEntitiesOk(base, ds, dm);
    }
  }

  lemma CombinedExactly(s: Snapshot, ds: seq<DeviceSettings>, ss: seq<StripSettings>, dm: DeviceTable, sm: StripTable, now: int)
    requires Valid(s) && |ds| == |s.devices| && TableOf(ds, DeviceKey, dm) && Distinct(ds, DeviceKey) && TableOf(ss, StripKey, sm)
    ensures Combine(s, Ok(dm), Ok(sm), now).Ok? <==> AllNamed(s.devices, ds) && StripsNamed(s.strips, ss) && EntitiesOk(ds)
  {
    SortedNames(s.devices, ds);
    InTable(BySlot(s.devices), ds, dm);
    StripsInTable(s.strips, ss, sm);
    if AllKnown(BySlot(s.devices), dm) && StripsKnown(s.strips, sm) {
      SettledValid(s, ds, dm, sm, now);
    }
  }

  /** A cleaned input is fine exactly when it has an id and, for a device, a name of 1 to 60 characters. */
  lemma DeviceInputOk(d: DeviceSettings)
    ensures InputOk(d, DeviceKey, DeviceFault) <==> d.id != "" && 1 <= |d.displayName| <= 60
  {
  }

  /** For a power strip, that its poll time is between a second and an hour. */
  lemma StripInputOk(s: StripSettings)
    ensures InputOk(s, StripKey, StripFault) <==> s.id != "" && 1 <= s.poll <= 3600
  {
  }

  /** The update goes through exactly when the inputs are acceptable. */
  lemma AcceptedExactly(s: Snapshot, devices: seq<DeviceSettings>, strips: seq<StripSettings>, now: int)
    requires Valid(s)
    ensures NewSettings(s, devices, strips, now).Ok? <==> Acceptable(s, CleanDevices(devices), CleanStrips(strips))
  {
    var ds, ss := CleanDevices(devices), CleanStrips(strips);
    CollectExactly(ds, DeviceKey, DeviceFault);
    CollectExactly(ss, StripKey, StripFault);
    var dm, sm := DeviceTableFrom(devices), StripTableFrom(strips);
    if dm.Ok? && sm.Ok? && |ds| == |s.devices| {
      CombinedExactly(s, ds, ss, dm.value, sm.value, now);
    }
  }

  lemma StripsInTable(strips: seq<PowerStrip>, ss: seq<StripSettings>, m: StripTable)
    requires TableOf(ss, StripKey, m)
    ensures StripsNamed(strips, ss) <==> StripsKnown(strips, m)
  {
    forall i | 0 <= i < |strips| ensures Named(ss, StripKey, strips[i].id) <==> strips[i].id in m {
    }
  }

  /** Device d carries what input c asks for. */
  predicate Carries(d: Device, c: DeviceSettings) {
    d.id == c.id && d.displayName == c.displayName && d.entity == c.entity && d.highFrequency == c.highFrequency
  }

  /** Nothing but the three editable fields differs. */
  predicate SameDevice(a: Device, b: Device) {
    a.id == b.id && a.slot == b.slot && a.critical == b.critical
  }

  predicate Supplied(d: Device, ds: seq<DeviceSettings>) {
    exists j :: 0 <= j < |ds| && Carries(d, ds[j])
  }

  predicate Used(c: DeviceSettings, devices: seq<Device>) {
    exists i :: 0 <= i < |devices| && Carries(devices[i], c)
  }

  /** Each device carries one input, and each input is carried by one device. */
  predicate OneToOne(devices: seq<Device>, ds: seq<DeviceSettings>) {
    && |devices| == |ds|
    && (forall i :: 0 <= i < |devices| ==> Supplied(devices[i], ds))
    && (forall j :: 0 <= j < |ds| ==> Used(ds[j], devices))
  }

  lemma ConfiguredOneToOne(base: seq<Device>, ds: seq<DeviceSettings>, m: DeviceTable)
    requires DevicesFit(base) && TableOf(ds, DeviceKey, m) && Distinct(ds, DeviceKey) && |base| == |ds| && AllNamed(base, ds)
    requires AllKnown(base, m)
    ensures OneToOne(ConfigureAll(base, m), ds)
  {
    var r := ConfigureAll(base, m);
    forall i: nat | i < |base| ensures Supplied(r[i], ds) {
      var j := FromInput(base, ds, m, i);
      assert Carries(r[i], ds[j]);
    }
    forall j: nat | j < |ds| ensures Used(ds[j], r) {
      var i := EveryInputIsUsed(base, ds, j);
      assert m[DeviceKey(ds[j])] == ds[j];
      assert Carries(r[i], ds[j]);
    }
  }

  /**
   The new map: valid, the same devices in slot order with only the editable fields replaced, and
   devices and inputs matched one to one.
   */
  lemma MatchedOneToOne(s: Snapshot, devices: seq<DeviceSettings>, strips: seq<StripSettings>, now: int)
    requires Valid(s) && NewSettings(s, devices, strips, now).Ok?
    ensures var next, base := NewSettings(s, devices, strips, now).value, BySlot(s.devices);
      && Valid(next) && OneToOne(next.devices, CleanDevices(devices)) && InSlotOrder(next.devices)
      && forall i :: 0 <= i < |base| ==> SameDevice(next.devices[i], base[i])
  {
    var ds, base := CleanDevices(devices), BySlot(s.devices);
    CollectExactly(ds, DeviceKey, DeviceFault);
    SortPermutes(s.devices);
    SortFits(s.devices);
    InTable(base, ds, DeviceTableFrom(devices).value);
    ConfiguredOneToOne(base, ds, DeviceTableFrom(devices).value);
  }

  /** The update counts one revision, and of a power strip only the poll time changes, to what its input asks for. */
  lemma StripsArePolled(s: Snapshot, devices: seq<DeviceSettings>, strips: seq<StripSettings>, now: int)
    requires Valid(s) && NewSettings(s, devices, strips, now).Ok?
    ensures var next, ss := NewSettings(s, devices, strips, now).value, CleanStrips(strips);
      && next.revision == s.revision + 1 && next.updatedAt == now && next.schema == s.schema && |next.strips| == |s.strips|
      && forall i, j :: 0 <= i < |s.strips| && 0 <= j < |ss| && ss[j].id == s.strips[i].id ==>
           next.strips[i] == s.strips[i].(poll := ss[j].poll)
  {
    var ss, m := CleanStrips(strips), StripTableFrom(strips).value;
    CollectExactly(ss, StripKey, StripFault);
    forall j | 0 <= j < |ss| ensures ss[j].id in m && m[ss[j].id] == ss[j] {
      assert StripKey(ss[j]) == ss[j].id;
    }
  }

  /** The first bad input decides the error: a missing or repeated id, or else its own fault. */
  lemma {:induction false} FirstBadDecides<T>(ins: seq<T>, key: T -> string, fault: T -> Option<StoreError>, n: nat)
    requires n < |ins| && Distinct(ins[..n], key) && AllOk(ins[..n], key, fault)
    requires key(ins[n]) == "" || Named(ins[..n], key, key(ins[n])) || fault(ins[n]).Some?
    ensures Collect(ins, key, fault) ==
      Err(if key(ins[n]) == "" || Named(ins[..n], key, key(ins[n])) then BadId else fault(ins[n]).value)
    decreases |ins|
  {
    var last := |ins| - 1;
    if n < last {
      assert ins[..last][..n] == ins[..n];
      FirstBadDecides(ins[..last], key, fault, n);
    } else {
      CollectExactly(ins[..n], key, fault);
    }
  }

  lemma FaultsAre(d: DeviceSettings, s: StripSettings)
    ensures DeviceFault(d) == None || DeviceFault(d) == Some(BadName)
    ensures StripFault(s) == None || StripFault(s) == Some(BadPoll)
  {
  }
}
