/**
 Adoption of tables whose checkpoint row was lost, followed by a replay of the stored samples: the
 state comes back but for the binding, as long as the last two accepted samples are retained.
 */
module ActivityAdoption {
  import opened Wrappers
  import opened ActivityTables
  import opened ActivityRecorder
  import opened ActivitySegments
  import opened ActivityHistory
  import opened ActivityRecovery

  // ---- adoption finds the device's last row ----

  lemma {:induction false} LatestIsLastOwn(events: seq<Event>, rowId: nat, id: DeviceId)
    requires LastOwn(events, rowId, id)
    requires forall p, q :: 0 <= p < q < |Own(events, id)| ==> Own(events, id)[p].start < Own(events, id)[q].start
    ensures LatestRow(events, id) == rowId
  {
    var n := |events|;
    var earlier := Own(events[..n - 1], id);
    if rowId == n {
      var k := LatestRow(events[..n - 1], id);
      if k != 0 {
        var p := OwnAt(events[..n - 1], k - 1, id);
        assert Own(events, id) == earlier + [events[n - 1]];
        assert Own(events, id)[p].start < Own(events, id)[|earlier|].start;
      }
    } else {
      assert Own(events, id) == earlier;
      LatestIsLastOwn(events[..n - 1], rowId, id);
    }
  }

  lemma {:induction false} LastOwnExists(events: seq<Event>, id: DeviceId) returns (rowId: nat)
    requires Own(events, id) != []
    ensures LastOwn(events, rowId, id) && events[rowId - 1] == Own(events, id)[|Own(events, id)| - 1]
  {
    var n := |events|;
    if events[n - 1].device == id { rowId := n; } else { rowId := LastOwnExists(events[..n - 1], id); }
  }

  lemma SegmentsAreOrdered(a: Log, id: DeviceId)
    requires Increasing(a, id)
    ensures forall p, q :: 0 <= p < q < |Segments(a)| ==> Segments(a)[p].start < Segments(a)[q].start
  {
    StartsAreComplete(a, |a|);
  }

  lemma AdoptFindsLast(t: Tables, a: Log, id: DeviceId) returns (rowId: nat)
    requires Tracks(t, a, id) && Increasing(a, id) && Segments(a) != []
    ensures LatestRow(t.events, id) == rowId && LastOwn(t.events, rowId, id)
    ensures t.events[rowId - 1] == Segments(a)[|Segments(a)| - 1]
  {
    SegmentsAreOrdered(a, id);
    rowId := LastOwnExists(t.events, id);
    LatestIsLastOwn(t.events, rowId, id);
  }

  // ---- a device without an open event ----

  /** Nothing is running after the end of the last event. */
  ghost predicate Quiet(a: Log, es: seq<Event>) {
    if es == [] then forall k :: 0 <= k < |a| ==> !On(a, k)
    else
      var end := es[|es| - 1].end;
      && end.Some? && end.value <= LastAt(a)
      && forall k :: 0 <= k < |a| && a[k].reading.at > end.value ==> !On(a, k)
  }

  lemma QuietKept(p: Log, e: Entry, id: DeviceId, es: seq<Event>)
    requires Increasing(p + [e], id) && Quiet(p, es) && !Running(e.reading)
    ensures Quiet(p + [e], es)
  {
    var a := p + [e];
    forall k | 0 <= k < |p| ensures On(a, k) == On(p, k) { SplitsPrefix(p, e, k); }
    assert LastAt(a) == a[|p|].reading.at;
    if p != [] { assert LastAt(p) == a[|p| - 1].reading.at; }
    if p == [] && es != [] { assert a[0].reading.at > ZERO_TIME; }
  }

  /** The second low in a row closes the open event at itself. */
  lemma LowClosesLast(p: Log, e: Entry)
    requires Fresh(p, |p|) && !Fresh(p + [e], |p| + 1) && !Splits(p + [e], |p|)
    ensures Segments(p + [e]) != []
    ensures Segments(p + [e])[|Segments(p + [e])| - 1].end == Some(e.reading.at)
  {
    FreshStep(p, e);
    SegmentsStep(p, e);
    SplitsPrefix(p, e, |p| - 1);
  }

  lemma QuietOnceLow(p: Log, e: Entry, id: DeviceId)
    requires Increasing(p + [e], id) && Fresh(p, |p|) && !Fresh(p + [e], |p| + 1) && !Splits(p + [e], |p|)
    ensures Quiet(p + [e], Segments(p + [e]))
  {
    LowClosesLast(p, e);
    assert LastAt(p + [e]) == e.reading.at;
  }

  /** A split at a low entry closes the open event at the entry before. */
  lemma SplitClosesLast(p: Log, e: Entry)
    requires Fresh(p, |p|) && Splits(p + [e], |p|) && !Running(e.reading)
    ensures Segments(p + [e]) != []
    ensures Segments(p + [e])[|Segments(p + [e])| - 1].end == Some(LastAt(p))
  {
    SegmentsStep(p, e);
    assert !IsStart(p + [e], |p|);
  }

  lemma QuietOnceSplit(p: Log, e: Entry, id: DeviceId)
    requires Increasing(p + [e], id) && Fresh(p, |p|) && !Fresh(p + [e], |p| + 1) && Splits(p + [e], |p|)
    ensures Quiet(p + [e], Segments(p + [e]))
  {
    var a, n := p + [e], |p|;
    assert On(a, n) == Running(e.reading);
    SplitClosesLast(p, e);
    assert LastAt(p) == a[n - 1].reading.at && LastAt(a) == a[n].reading.at;
  }

  lemma QuietStays(p: Log, e: Entry, id: DeviceId)
    requires Increasing(p + [e], id) && !Fresh(p, |p|) && !Fresh(p + [e], |p| + 1)
    requires Quiet(p, Segments(p))
    ensures Quiet(p + [e], Segments(p + [e]))
  {
    SegmentsStep(p, e);
    assert On(p + [e], |p|) == Running(e.reading) && !IsStart(p + [e], |p|);
    assert Segments(p) + [] == Segments(p);
    QuietKept(p, e, id, Segments(p));
  }

  lemma QuietStep(p: Log, e: Entry, id: DeviceId)
    requires Increasing(p + [e], id) && !Fresh(p + [e], |p| + 1)
    requires !Fresh(p, |p|) ==> Quiet(p, Segments(p))
    ensures Quiet(p + [e], Segments(p + [e]))
  {
    if !Fresh(p, |p|) {
      QuietStays(p, e, id);
    } else if Splits(p + [e], |p|) {
      QuietOnceSplit(p, e, id);
    } else {
      QuietOnceLow(p, e, id);
    }
  }

  lemma IncreasingPrefix(p: Log, e: Entry, id: DeviceId)
    requires Increasing(p + [e], id)
    ensures Increasing(p, id)
  {
    assert forall i :: 0 <= i < |p| ==> p[i] == (p + [e])[i];
  }

  /** When nothing is open, every reading after the end of the last event is low. */
  lemma {:induction false} QuietAfterEnd(a: Log, id: DeviceId)
    requires Increasing(a, id) && !Fresh(a, |a|)
    ensures Quiet(a, Segments(a))
    decreases |a|
  {
    if a == [] {
      assert Segments(a) == [];
    } else {
      var p, e := a[..|a| - 1], a[|a| - 1];
      assert a == p + [e];
      IncreasingPrefix(p, e, id);
      if !Fresh(p, |p|) { QuietAfterEnd(p, id); }
      QuietStep(p, e, id);
    }
  }

  /** Replaying samples that are low wherever they are new only moves the device's latest time. */
  lemma {:induction false} ReplayOfQuiet(t: Tables, id: DeviceId, rs: seq<Reading>)
    requires Sorted(rs) && Load(t, id).eventId == 0 && Load(t, id).low == 0
    requires forall i :: 0 <= i < |rs| && rs[i].at > Load(t, id).last ==> !Running(rs[i])
    ensures var u, s := Replay(t, id, rs), Load(t, id);
            && u.events == t.events
            && u.checkpoints - {id} == t.checkpoints - {id}
            && Load(u, id) == s.(last := if rs == [] || rs[|rs| - 1].at <= s.last then s.last else rs[|rs| - 1].at)
  {
    if rs != [] {
      var n := |rs| - 1;
      ReplayOfQuiet(t, id, rs[..n]);
      var u := Replay(t, id, rs[..n]);
      assert u.checkpoints[id := Load(u, id).(last := rs[n].at)] - {id} == u.checkpoints - {id};
    }
  }

  lemma SuffixSorted(rows: seq<Reading>, a: Log, id: DeviceId)
    requires Increasing(a, id) && Suffix(rows, a)
    ensures Sorted(rows)
  {
    forall i, j | 0 <= i < j < |rows| ensures rows[i].at < rows[j].at {
      assert rows[i] == a[|a| - |rows| + i].reading && rows[j] == a[|a| - |rows| + j].reading;
    }
  }

  lemma LastIsReplayed(rows: seq<Reading>, a: Log, id: DeviceId, since: Time)
    requires Increasing(a, id) && Suffix(rows, a) && rows != [] && since <= LastAt(a)
    ensures var rs := Since(rows, since); rs != [] && rs[|rs| - 1].at == LastAt(a)
  {
    SuffixSorted(rows, a, id);
    var k := SinceIsSuffix(rows, since);
    assert rows[|rows| - 1] == a[|a| - 1].reading;
    assert rows[k..][|rows| - k - 1] == rows[|rows| - 1];
  }

  // ---- adoption and replay restore the lost state ----

  /** The tables after the checkpoint row of the device is lost. */
  function Lose(t: Tables, id: DeviceId): Tables {
    t.(checkpoints := t.checkpoints - {id})
  }

  lemma TrailingLowMatches(rows: seq<Reading>, a: Log)
    requires Suffix(rows, a) && (|rows| >= 2 || |rows| == |a|) && Fresh(a, |a|)
    ensures rows != [] && rows[|rows| - 1].at == LastAt(a)
    ensures TrailingLow(rows) == (if On(a, |a| - 1) then 0 else 1)
  {
    assert rows[|rows| - 1] == a[|a| - 1].reading;
    if |rows| >= 2 { assert rows[|rows| - 2] == a[|a| - 2].reading; }
  }

  lemma AdoptOpen(t: Tables, id: DeviceId, rows: seq<Reading>)
    requires var rowId := LatestRow(t.events, id); rowId > 0 && t.events[rowId - 1].end.None?
    requires rows == Rows(t.samples, id) && rows != []
    ensures var rowId := LatestRow(t.events, id);
            Adopt(t, id) == Checkpoint(rows[|rows| - 1].at, t.events[rowId - 1].start, rowId, TrailingLow(rows), "")
  {
  }

  lemma RecoverOpen(t: Tables, a: Log, id: DeviceId)
    requires Tracks(t, a, id) && Increasing(a, id) && Fresh(a, |a|)
    requires var rows := Rows(t.samples, id);
             Suffix(rows, a) && (|rows| >= 2 || |rows| == |a|)
    ensures Load(Lose(t, id), id) == t.checkpoints[id].(binding := "")
  {
    var s := t.checkpoints[id];
    assert Matches(t.events, a, id, s);
    TrailingLowMatches(Rows(t.samples, id), a);
    OpenRowIsLatest(t, a, id);
    AdoptOpen(Lose(t, id), id, Rows(t.samples, id));
    assert Adopt(Lose(t, id), id) == Checkpoint(s.last, s.started, s.eventId, s.low, "");
  }

  lemma SameLastOwn(events: seq<Event>, i: nat, j: nat, id: DeviceId)
    requires LastOwn(events, i, id) && LastOwn(events, j, id)
    ensures i == j
  {
    assert events[i - 1].device == id && events[j - 1].device == id;
  }

  lemma OpenRowIsLatest(t: Tables, a: Log, id: DeviceId)
    requires Tracks(t, a, id) && Increasing(a, id) && Fresh(a, |a|)
    ensures a != [] && var rowId := t.checkpoints[id].eventId;
            && LastOwn(t.events, rowId, id) && LatestRow(t.events, id) == rowId
            && t.events[rowId - 1].end.None?
  {
    OpenIsLast(a);
    var rowId := AdoptFindsLast(t, a, id);
    SameLastOwn(t.events, rowId, t.checkpoints[id].eventId, id);
  }

  lemma RecoverQuiet(t: Tables, a: Log, id: DeviceId)
    requires Tracks(t, a, id) && Increasing(a, id) && !Fresh(a, |a|)
    ensures var s := Load(Lose(t, id), id);
            && s.eventId == 0 && s.low == 0 && s.binding == "" && s.last <= LastAt(a)
            && forall k :: 0 <= k < |a| && a[k].reading.at > s.last ==> !On(a, k)
  {
    QuietAfterEnd(a, id);
    if Segments(a) == [] {
      NoRowNoLatest(t.events, id);
      if a != [] { assert a[|a| - 1].reading.at > ZERO_TIME; }
    } else {
      var rowId := AdoptFindsLast(t, a, id);
    }
  }

  lemma ReplayAfterOpen(t: Tables, a: Log, id: DeviceId, since: Time)
    requires Tracks(t, a, id) && Increasing(a, id) && Fresh(a, |a|)
    requires var rows := Rows(t.samples, id);
             Suffix(rows, a) && (|rows| >= 2 || |rows| == |a|)
    ensures var lost := Lose(t, id);
            var back := Replay(lost, id, Since(Rows(t.samples, id), since));
            back == lost && Load(back, id) == t.checkpoints[id].(binding := "")
  {
    var rs := Since(Rows(t.samples, id), since);
    SuffixKept(Rows(t.samples, id), a, id, since);
    RecoverOpen(t, a, id);
    SuffixNotAfter(rs, a, id);
    ReplayOfPast(Lose(t, id), id, rs);
  }

  /** Tables whose adopted state is closed no earlier than the last running reading. */
  lemma ReplayAfterQuiet(lost: Tables, a: Log, id: DeviceId, since: Time)
    requires a != [] && Increasing(a, id) && since <= LastAt(a)
    requires Suffix(Rows(lost.samples, id), a) && Rows(lost.samples, id) != []
    requires var s := Load(lost, id);
             && s.eventId == 0 && s.low == 0 && s.binding == "" && s.last <= LastAt(a)
             && forall k :: 0 <= k < |a| && a[k].reading.at > s.last ==> !On(a, k)
    ensures var back := Replay(lost, id, Since(Rows(lost.samples, id), since));
            var s := Load(back, id);
            && back.events == lost.events && back.checkpoints - {id} == lost.checkpoints - {id}
            && s.last == LastAt(a) && s.eventId == 0 && s.low == 0 && s.binding == ""
  {
    var rs := Since(Rows(lost.samples, id), since);
    SuffixKept(Rows(lost.samples, id), a, id, since);
    SuffixSorted(rs, a, id);
    forall i | 0 <= i < |rs| && rs[i].at > Load(lost, id).last ensures !Running(rs[i]) {
      assert rs[i] == a[|a| - |rs| + i].reading && !On(a, |a| - |rs| + i);
    }
    ReplayOfQuiet(lost, id, rs);
    LastIsReplayed(Rows(lost.samples, id), a, id, since);
  }

  // ---- the state before and after ----

  /** The same state but for a missing binding, and for a start time that is not in use. */
  ghost predicate Similar(s: Checkpoint, r: Checkpoint) {
    && s.last == r.last && s.eventId == r.eventId && s.low == r.low
    && (s.eventId != 0 ==> s.started == r.started)
    && (s.binding == "" || s.binding == r.binding)
  }

  /** Same rows, same state of the other devices, and a similar state of this one. */
  ghost predicate Alike(t: Tables, u: Tables, id: DeviceId) {
    && t.events == u.events
    && t.checkpoints - {id} == u.checkpoints - {id}
    && Similar(Load(t, id), Load(u, id))
  }

  /** What either replay leaves behind is the lost state without its binding. */
  lemma RestoredIsAlike(t: Tables, a: Log, id: DeviceId, back: Tables)
    requires Tracks(t, a, id) && a != []
    requires back.events == t.events && back.checkpoints - {id} == Lose(t, id).checkpoints - {id}
    requires var s := Load(back, id);
             if Fresh(a, |a|) then s == t.checkpoints[id].(binding := "")
             else s.last == LastAt(a) && s.eventId == 0 && s.low == 0 && s.binding == ""
    ensures Alike(back, t, id) && Load(back, id).binding == ""
  {
    assert (t.checkpoints - {id}) - {id} == t.checkpoints - {id};
  }

  lemma ReplayRestores(t: Tables, a: Log, id: DeviceId, since: Time)
    requires Tracks(t, a, id) && a != [] && Increasing(a, id)
    requires var rows := Rows(t.samples, id);
             Suffix(rows, a) && (|rows| >= 2 || |rows| == |a|) && since <= LastAt(a)
    ensures var back := Replay(Lose(t, id), id, Since(Rows(t.samples, id), since));
            Alike(back, t, id) && Load(back, id).binding == ""
  {
    if Fresh(a, |a|) {
      ReplayAfterOpen(t, a, id, since);
    } else {
      RecoverQuiet(t, a, id);
      ReplayAfterQuiet(Lose(t, id), a, id, since);
    }
    RestoredIsAlike(t, a, id, Replay(Lose(t, id), id, Since(Rows(t.samples, id), since)));
  }

  /** What adoption and the replay of the samples since some time make of a lost checkpoint. */
  function Recovered(t: Tables, id: DeviceId, since: Time): Tables {
    Replay(Lose(t, id), id, Since(Rows(Lose(t, id).samples, id), since))
  }

  /** The last two accepted readings are still stored, and the replay reaches them. */
  ghost predicate Retained(h: Log, id: DeviceId, since: Time) {
    var a, rows := Accepted(h, id), Rows(Run(EMPTY, h).samples, id);
    (|rows| >= 2 || |rows| == |a|) && since <= LastAt(a)
  }

  /** After every history, whatever its bindings, recovery brings back all but the binding. */
  lemma RecoverState(h: Log, id: DeviceId, since: Time)
    requires Retained(h, id, since)
    ensures var t, back := Run(EMPTY, h), Recovered(Run(EMPTY, h), id, since);
            Alike(back, t, id) && Load(back, id).binding == ""
  {
    var t := Run(EMPTY, h);
    RunTracks(EMPTY, h, id);
    AcceptedIncreases(h, id);
    SamplesAreSuffix(h, id);
    if Accepted(h, id) == [] {
      NoRowNoLatest(t.events, id);
      assert t.checkpoints - {id} == t.checkpoints;
      assert Recovered(t, id, since) == t;
    } else {
      ReplayRestores(t, Accepted(h, id), id, since);
    }
  }

  /**
   Legacy tables: an event left open after its second stored low sample is closed at that sample by
   the next reading, and a run beginning there is a new event.
   */
  lemma LegacyRunIsNotMerged(t: Tables, id: DeviceId, binding: string, r: Reading)
    requires id !in t.checkpoints
    requires var rowId, rows := LatestRow(t.events, id), Rows(t.samples, id);
             && rowId > 0 && t.events[rowId - 1].end.None?
             && |rows| >= 2 && !Running(rows[|rows| - 1]) && !Running(rows[|rows| - 2])
             && r.at > rows[|rows| - 1].at
    ensures var rowId, rows := LatestRow(t.events, id), Rows(t.samples, id);
            var row := t.events[rowId - 1];
            Record(t, id, binding, r).tables.events ==
            t.events[rowId - 1 := Ended(row, rows[|rows| - 1].at, row.start)]
            + (if Running(r) then [NewEvent(id, r)] else [])
  {
    var rowId := LatestRow(t.events, id);
    assert Load(t, id).low == 2;
    assert Retire(Draft(t.events, Load(t, id))).s.eventId == 0;
    assert Transition(t, id, binding, r).events ==
           CloseRow(t.events, rowId, Load(t, id).last, t.events[rowId - 1].start)
           + (if Running(r) then [NewEvent(id, r)] else []);
  }
}
