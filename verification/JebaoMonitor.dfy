/**
 The JEBAO monitor (internal/jebao/monitor.go, controlDevice in control.go): device records, the
 `busy` flag that lets one operation in at a time, and the sections of code that hold the lock, each
 of which is one atomic step.
 */
module JebaoMonitor {
  import opened Wrappers

  datatype Identity = Identity(ip: string, mac: string, key: string)

  /** Decoded attributes, with the discovered identity whose device and product key they were read with. */
  datatype Reading = Reading(from: Identity, values: map<string, int>)

  datatype Device = Device(
    id: string, mac: string, identity: Identity, attributes: Option<Reading>, connected: bool,
    error: string, lastSuccess: Option<int>, lastAttempt: Option<int>)

  type Hosts = map<string, string>

  /** Letters and digits compare without regard to case, as strings.EqualFold does on hardware addresses. */
  function FoldChar(c: char): char {
    if 'A' <= c <= 'Z' then ((c as int) + 32) as char else c
  }

  function Fold(s: string): string {
    seq(|s|, i requires 0 <= i < |s| => FoldChar(s[i]))
  }

  predicate SameMac(a: string, b: string) {
    Fold(a) == Fold(b)
  }

  // ---- what the locked sections do ----

  function Accepted(d: Device, id: Identity): Device {
    if !SameMac(id.mac, d.mac) then d
    else if d.identity.key != "" && d.identity.key != id.key
    then d.(attributes := None, lastSuccess := None, identity := id)
    else d.(identity := id)
  }

  function AcceptOne(devices: seq<Device>, id: Identity): (r: seq<Device>)
    ensures |r| == |devices|
    ensures forall i :: 0 <= i < |devices| ==> r[i] == Accepted(devices[i], id)
  {
    seq(|devices|, i requires 0 <= i < |devices| => Accepted(devices[i], id))
  }

  function AcceptAll(devices: seq<Device>, ids: seq<Identity>): (r: seq<Device>)
    ensures |r| == |devices|
    decreases |ids|
  {
    if ids == [] then devices else AcceptOne(AcceptAll(devices, ids[..|ids| - 1]), ids[|ids| - 1])
  }

  function FailedDevice(d: Device, message: string, now: int): Device {
    d.(connected := false, error := message, lastAttempt := Some(now))
  }

  function ReadDevice(d: Device, r: Reading, now: int): Device {
    d.(attributes := Some(r), connected := true, error := "", lastSuccess := Some(now), lastAttempt := Some(now))
  }

  function Disconnected(devices: seq<Device>): (r: seq<Device>)
    ensures |r| == |devices|
    ensures forall i :: 0 <= i < |devices| ==> r[i] == devices[i].(connected := false)
  {
    seq(|devices|, i requires 0 <= i < |devices| => devices[i].(connected := false))
  }

  /** Where to look for a device: the configured host, or else the address it answered from. */
  function Target(hosts: Hosts, d: Device): string {
    if d.id in hosts && hosts[d.id] != "" then hosts[d.id] else d.identity.ip
  }

  predicate Known(devices: seq<Device>, id: string) {
    exists i :: 0 <= i < |devices| && devices[i].id == id
  }

  predicate GoodHosts(devices: seq<Device>, hosts: Hosts, private: set<string>) {
    forall id :: id in hosts ==> Known(devices, id) && hosts[id] in private
  }

  function Stale(d: Device, now: int): bool {
    !d.connected || d.lastSuccess.None? || now - d.lastSuccess.value > 90_000
  }

  /** A reading is shown as fresh for ninety seconds. */
  lemma ReadingIsFresh(d: Device, r: Reading, now: int, later: int)
    ensures Stale(ReadDevice(d, r, now), later) <==> later > now + 90_000
  {
  }

  /** After a failure, or new settings, nothing is fresh, but what was read stays to be shown. */
  lemma FailureKeepsReading(d: Device, message: string, now: int, later: int)
    ensures var f := FailedDevice(d, message, now);
      Stale(f, later) && f.attributes == d.attributes && f.lastSuccess == d.lastSuccess && f.identity == d.identity
      && f.error == message && f.lastAttempt == Some(now)
    ensures Stale(Disconnected([d])[0], later)
  {
  }

  /** What was read under one product key is forgotten exactly when the device answers under another. */
  lemma AcceptForgets(d: Device, id: Identity)
    requires d.attributes.Some?
    ensures Accepted(d, id).attributes == None <==>
      SameMac(id.mac, d.mac) && d.identity.key != "" && d.identity.key != id.key
    ensures Accepted(d, id).attributes.Some? ==> Accepted(d, id).attributes == d.attributes && Accepted(d, id).lastSuccess == d.lastSuccess
    ensures Accepted(d, id).identity == if SameMac(id.mac, d.mac) then id else d.identity
  {
  }

  /** A configured host wins over the address a device last answered from. */
  lemma ConfiguredHostWins(hosts: Hosts, d: Device)
    ensures d.id in hosts && hosts[d.id] != "" ==> Target(hosts, d) == hosts[d.id]
    ensures Target(map[], d) == d.identity.ip && Target(hosts[d.id := ""], d) == d.identity.ip
  {
  }

  /** Hardware addresses are the same when they differ in the case of letters only. */
  lemma CaseIsIgnored(a: string, b: string)
    ensures SameMac(a, b) <==>
      |a| == |b| && forall i :: 0 <= i < |a| ==>
        a[i] == b[i] || ('A' <= a[i] <= 'Z' && b[i] as int == a[i] as int + 32)
        || ('A' <= b[i] <= 'Z' && a[i] as int == b[i] as int + 32)
  {
    if SameMac(a, b) {
      assert |Fold(a)| == |a| && |Fold(b)| == |b|;
      forall i | 0 <= i < |a| ensures FoldChar(a[i]) == FoldChar(b[i]) {
        assert Fold(a)[i] == Fold(b)[i];
      }
    }
  }

  class Monitor {
    var devices: seq<Device>
    var hosts: Hosts
    var busy: bool

    constructor (devices: seq<Device>, hosts: Hosts)
      ensures this.devices == devices && this.hosts == hosts && !busy
    {
      this.devices, this.hosts, busy := devices, hosts, false;
    }

    /** The test-and-set at the head of Refresh and controlDevice. */
    method TryEnter() returns (ok: bool)
      modifies this`busy
      ensures ok == !old(busy) && busy
    {
      if busy { return false; }
      busy := true;
      return true;
    }

    method Leave()
      modifies this`busy
      ensures !busy
    {
      busy := false;
    }

    method Accept(ids: seq<Identity>)
      modifies this`devices
      ensures devices == AcceptAll(old(devices), ids)
    {
      for k := 0 to |ids|
        invariant devices == AcceptAll(old(devices), ids[..k])
      {
        ghost var start := devices;
        for i := 0 to |devices|
          invariant |devices| == |start|
          invariant forall j :: 0 <= j < i ==> devices[j] == Accepted(start[j], ids[k])
          invariant forall j :: i <= j < |start| ==> devices[j] == start[j]
        {
          var d := devices[i];
          if SameMac(ids[k].mac, d.mac) {
            if d.identity.key != "" && d.identity.key != ids[k].key {
              d := d.(attributes := None);
              d := d.(lastSuccess := None);
            }
            d := d.(identity := ids[k]);
          }
          devices := devices[i := d];
        }
        assert devices == AcceptOne(start, ids[k]);
        assert ids[..k + 1][..k] == ids[..k];
      }
      assert ids[..|ids|] == ids;
    }

    method Failed(i: nat, message: string, now: int)
      requires i < |devices|
      modifies this`devices
      ensures devices == old(devices)[i := FailedDevice(old(devices)[i], message, now)]
    {
      var d := devices[i];
      d := d.(connected := false);
      d := d.(error := message);
      d := d.(lastAttempt := Some(now));
      devices := devices[i := d];
    }

    /** The end of a device's goroutine in Refresh. */
    method StoreReading(i: nat, r: Reading, now: int)
      requires i < |devices|
      modifies this`devices
      ensures devices == old(devices)[i := ReadDevice(old(devices)[i], r, now)]
    {
      var d := devices[i];
      d := d.(attributes := Some(r));
      d := d.(connected := true);
      d := d.(error := "");
      d := d.(lastSuccess := Some(now));
      d := d.(lastAttempt := Some(now));
      devices := devices[i := d];
    }

    /** The end of controlDevice. */
    method StoreControl(i: nat, id: Identity, r: Reading, now: int)
      requires i < |devices|
      modifies this`devices
      ensures devices == old(devices)[i := ReadDevice(old(devices)[i].(identity := id), r, now)]
    {
      devices := devices[i := devices[i].(identity := id)];
      StoreReading(i, r, now);
    }

    /** The settings handler: private is the set of strings that are private IPv4 addresses, saved whether the file was replaced. */
    method PutSettings(asked: Hosts, private: set<string>, saved: bool) returns (ok: bool)
      modifies this`hosts, this`devices
      ensures ok == (!busy && GoodHosts(old(devices), asked, private) && saved)
      ensures hosts == if ok then asked else old(hosts)
      ensures devices == if ok then Disconnected(old(devices)) else old(devices)
    {
      if busy { return false; }
      if !GoodHosts(devices, asked, private) { return false; }
      if !saved { return false; }
      hosts := asked;
      ghost var start := devices;
      for i := 0 to |devices|
        invariant |devices| == |start| && hosts == asked
        invariant forall j :: 0 <= j < i ==> devices[j] == start[j].(connected := false)
        invariant forall j :: i <= j < |start| ==> devices[j] == start[j]
      {
        devices := devices[i := devices[i].(connected := false)];
      }
      return true;
    }
  }
}
