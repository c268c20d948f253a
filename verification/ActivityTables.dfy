/**
 The tables behind the equipment activity recorder (internal/storage) and one function for each
 SQL statement the recorder issues.

 Event rows are never deleted here, so the AUTOINCREMENT id of a row is its position plus one and
 id 0 names no row. Sample rows are kept per device in primary-key order, that is by time. Times
 are integers (nanoseconds), ZERO_TIME being the zero value of Go's time.Time.
 */
module ActivityTables {
  import opened Wrappers

  type DeviceId = string
  type Time = int

  const ZERO_TIME: Time := 0
  const DAY: int := 86_400_000_000_000

  datatype Reading = Reading(at: Time, voltage: real, current: real, power: real)

  /** A reading counts as running inside the mains voltage band with some current or power. */
  predicate Running(r: Reading) {
    80.0 <= r.voltage <= 140.0 && (r.current >= 0.005 || r.power >= 0.5)
  }

  /** The edges of the band and of the two thresholds; more current or power never stops a reading from running. */
  lemma RunningEdges(r: Reading, more: Reading)
    ensures r.voltage == 80.0 && r.current == 0.005 ==> Running(r)
    ensures r.voltage == 140.0 && r.power == 0.5 ==> Running(r)
    ensures r.voltage < 80.0 || r.voltage > 140.0 || (r.current < 0.005 && r.power < 0.5) ==> !Running(r)
    ensures Running(r) && 80.0 <= more.voltage <= 140.0 && more.current >= r.current && more.power >= r.power ==> Running(more)
  {
  }

  datatype Event = Event(device: DeviceId, start: Time, end: Option<Time>, duration: Option<int>,
                         peakCurrent: real, peakPower: real, samples: nat)

  datatype Checkpoint = Checkpoint(last: Time, started: Time, eventId: nat, low: nat, binding: string)

  datatype Tables = Tables(events: seq<Event>,
                           checkpoints: map<DeviceId, Checkpoint>,
                           samples: map<DeviceId, seq<Reading>>)

  const EMPTY: Tables := Tables([], map[], map[])
  const FRESH: Checkpoint := Checkpoint(ZERO_TIME, ZERO_TIME, 0, 0, "")

  function Max(x: real, y: real): real {
    if x < y then y else x
  }

  // ---- equipment_events ----

  function NewEvent(id: DeviceId, r: Reading): Event {
    Event(id, r.at, None, None, r.current, r.power, 1)
  }

  function Bumped(e: Event, r: Reading): Event {
    e.(peakCurrent := Max(e.peakCurrent, r.current),
       peakPower := Max(e.peakPower, r.power),
       samples := e.samples + 1)
  }

  function Ended(e: Event, end: Time, started: Time): Event {
    e.(end := Some(end), duration := Some(end - started))
  }

  /** UPDATE ... SET ended_at, duration_seconds WHERE id = rowId AND ended_at IS NULL */
  function CloseRow(events: seq<Event>, rowId: nat, end: Time, started: Time): seq<Event> {
    if 1 <= rowId <= |events| && events[rowId - 1].end.None?
    then events[rowId - 1 := Ended(events[rowId - 1], end, started)]
    else events
  }

  /** UPDATE ... SET peaks, samples = samples + 1 WHERE id = rowId */
  function BumpRow(events: seq<Event>, rowId: nat, r: Reading): seq<Event> {
    if 1 <= rowId <= |events|
    then events[rowId - 1 := Bumped(events[rowId - 1], r)]
    else events
  }

  /** SELECT ... WHERE device_id = id ORDER BY started_at DESC LIMIT 1; 0 when there is no row. */
  function LatestRow(events: seq<Event>, id: DeviceId): (rowId: nat)
    ensures rowId <= |events|
    ensures rowId > 0 ==> events[rowId - 1].device == id
  {
    if events == [] then 0
    else
      var n := |events|;
      var earlier := LatestRow(events[..n - 1], id);
      if events[n - 1].device == id && (earlier == 0 || events[n - 1].start >= events[earlier - 1].start)
      then n
      else earlier
  }

  /** The rows of one device, oldest first. */
  function Own(events: seq<Event>, id: DeviceId): seq<Event>
  {
    if events == [] then []
    else
      var n := |events|;
      Own(events[..n - 1], id) + (if events[n - 1].device == id then [events[n - 1]] else [])
  }

  // ---- outlet_samples ----

  function Rows(samples: map<DeviceId, seq<Reading>>, id: DeviceId): seq<Reading> {
    if id in samples then samples[id] else []
  }

  /** INSERT OR IGNORE on the primary key (device, time). */
  function InsertOrIgnore(rows: seq<Reading>, r: Reading): seq<Reading> {
    if rows == [] then [r]
    else
      var n := |rows|;
      if r.at > rows[n - 1].at then rows + [r]
      else if r.at == rows[n - 1].at then rows
      else InsertOrIgnore(rows[..n - 1], r) + [rows[n - 1]]
  }

  /** INSERT OR REPLACE on the primary key (device, time). */
  function InsertOrReplace(rows: seq<Reading>, r: Reading): seq<Reading> {
    if rows == [] then [r]
    else
      var n := |rows|;
      if r.at > rows[n - 1].at then rows + [r]
      else if r.at == rows[n - 1].at then rows[n - 1 := r]
      else InsertOrReplace(rows[..n - 1], r) + [rows[n - 1]]
  }

  /** Rows at or after the cutoff, in order. */
  function Since(rows: seq<Reading>, cutoff: Time): seq<Reading>
  {
    if rows == [] then []
    else
      var n := |rows|;
      Since(rows[..n - 1], cutoff) + (if rows[n - 1].at >= cutoff then [rows[n - 1]] else [])
  }

  /** DELETE FROM outlet_samples WHERE sampled_at < cutoff, for every device. */
  function DeleteBefore(samples: map<DeviceId, seq<Reading>>, cutoff: Time): map<DeviceId, seq<Reading>> {
    map id | id in samples :: Since(samples[id], cutoff)
  }

  // ---- loading the state of one device ----

  /** How many of the last two rows, newest first, are low before the first running one. */
  function TrailingLow(rows: seq<Reading>): (low: nat)
    ensures low <= 2
  {
    var n := |rows|;
    if n == 0 || Running(rows[n - 1]) then 0
    else if n == 1 || Running(rows[n - 2]) then 1
    else 2
  }

  /** Adoption of tables that carry no checkpoint for the device. */
  function Adopt(t: Tables, id: DeviceId): Checkpoint {
    var rowId := LatestRow(t.events, id);
    if rowId == 0 then FRESH
    else
      var e := t.events[rowId - 1];
      if e.end.Some? then Checkpoint(e.end.value, e.start, 0, 0, "")
      else
        var rows := Rows(t.samples, id);
        Checkpoint(if rows == [] then e.start else rows[|rows| - 1].at, e.start, rowId, TrailingLow(rows), "")
  }

  function Load(t: Tables, id: DeviceId): Checkpoint {
    if id in t.checkpoints then t.checkpoints[id] else Adopt(t, id)
  }
}
