/**
 Main results about the activity recorder: over every history, for any number of devices, any
 order and any bindings, the incremental recorder produces the declarative segmentation.
 */
module ActivityHistory {
  import opened Wrappers
  import opened ActivityTables
  import opened ActivityRecorder
  import opened ActivitySegments

  /** Folding the recorder over a history. */
  function Run(t: Tables, h: Log): Tables {
    if h == [] then t
    else
      var e := h[|h| - 1];
      Record(Run(t, h[..|h| - 1]), e.device, e.binding, e.reading).tables
  }

  // ---- the segmentation, one entry at a time ----

  /** An event that had started already, after one more entry. */
  lemma OldEvent(a: Log, e: Entry, k: nat)
    requires k < |Starts(a, |a|)|
    ensures var i := Starts(a, |a|)[k];
      EventAt(a + [e], i) ==
        if k == |Starts(a, |a|)| - 1 && Fresh(a, |a|) then Carry(a, e, EventAt(a, i)) else EventAt(a, i)
  {
    var s := Starts(a, |a|);
    OnlyLastOpen(a);
    if k == |s| - 1 && Fresh(a, |a|) { OpenPrefix(a, e, s[k]); } else { ClosedPrefix(a, e, s[k]); }
  }

  lemma StartedEvent(a: Log, e: Entry)
    requires IsStart(a + [e], |a|)
    ensures EventAt(a + [e], |a|) == NewEvent(e.device, e.reading)
  {
    var b, n := a + [e], |a|;
    assert StopFrom(b, n + 1) == n + 1;
    assert Count(b, n, n + 1) == Count(b, n, n) + 1;
  }

  lemma StartsStep(a: Log, e: Entry)
    ensures Starts(a + [e], |a| + 1) == Starts(a, |a|) + (if IsStart(a + [e], |a|) then [|a|] else [])
  {
    StartsPrefix(a, e, |a|);
  }

  /** The events of a history once its open one has taken another entry. */
  function Carried(a: Log, e: Entry): (es: seq<Event>)
    ensures |es| == |Segments(a)|
  {
    var es := Segments(a);
    if |a| > 0 && es != [] && Fresh(a, |a|) then es[|es| - 1 := Carry(a, e, es[|es| - 1])] else es
  }

  lemma OldEventCarried(a: Log, e: Entry, k: nat)
    requires k < |Starts(a, |a|)|
    ensures EventAt(a + [e], Starts(a, |a|)[k]) == Carried(a, e)[k]
  {
    OldEvent(a, e, k);
    assert Segments(a)[k] == EventAt(a, Starts(a, |a|)[k]);
  }

  lemma SameEvents(es: seq<Event>, fs: seq<Event>)
    requires |es| == |fs| && forall k :: 0 <= k < |es| ==> es[k] == fs[k]
    ensures es == fs
  {
  }

  lemma OldEvents(a: Log, e: Entry)
    ensures EventsAt(a + [e], Starts(a, |a|)) == Carried(a, e)
  {
    var es, fs := EventsAt(a + [e], Starts(a, |a|)), Carried(a, e);
    forall k | 0 <= k < |es| ensures es[k] == fs[k] {
      OldEventCarried(a, e, k);
    }
    SameEvents(es, fs);
  }

  lemma OpenIsLast(a: Log)
    requires Fresh(a, |a|)
    ensures Segments(a) != [] && Segments(a)[|Segments(a)| - 1].end.None?
  {
    OnlyLastOpen(a);
  }

  lemma SegmentsStep(a: Log, e: Entry)
    ensures var es, n := Segments(a), |a|;
            && (Fresh(a, n) ==> es != [] && es[|es| - 1].end.None?)
            && Segments(a + [e]) ==
               (if Fresh(a, n) then es[|es| - 1 := Carry(a, e, es[|es| - 1])] else es)
               + (if IsStart(a + [e], n) then [NewEvent(e.device, e.reading)] else [])
  {
    StartsStep(a, e);
    OldEvents(a, e);
    if Fresh(a, |a|) { OpenIsLast(a); }
    if IsStart(a + [e], |a|) {
      StartedEvent(a, e);
      assert Segments(a + [e]) == EventsAt(a + [e], Starts(a, |a|)) + [EventAt(a + [e], |a|)];
    } else {
      assert Segments(a + [e]) == EventsAt(a + [e], Starts(a, |a|)) + [];
    }
  }

  // ---- the rows of one device inside the shared table ----

  ghost predicate LastOwn(events: seq<Event>, rowId: nat, id: DeviceId) {
    && 1 <= rowId <= |events|
    && events[rowId - 1].device == id
    && forall j :: rowId <= j < |events| ==> events[j].device != id
  }

  lemma {:induction false} OwnUpdate(events: seq<Event>, rowId: nat, e: Event)
    requires LastOwn(events, rowId, e.device)
    ensures var rows := Own(events, e.device);
            && rows != [] && rows[|rows| - 1] == events[rowId - 1]
            && Own(events[rowId - 1 := e], e.device) == rows[|rows| - 1 := e]
  {
    var n := |events|;
    var after := events[rowId - 1 := e];
    if rowId == n {
      assert after[..n - 1] == events[..n - 1];
    } else {
      assert after[..n - 1] == events[..n - 1][rowId - 1 := e];
      OwnUpdate(events[..n - 1], rowId, e);
    }
  }

  /** Rows of other devices are the same, no row moves, and new rows belong to the device. */
  ghost predicate Extends(before: seq<Event>, after: seq<Event>, id: DeviceId) {
    && |before| <= |after|
    && (forall k :: 0 <= k < |before| ==>
                      && after[k].device == before[k].device
                      && after[k].start == before[k].start
                      && (before[k].device != id ==> after[k] == before[k]))
    && (forall k :: |before| <= k < |after| ==> after[k].device == id)
  }

  lemma {:induction false} OwnOthers(before: seq<Event>, after: seq<Event>, id: DeviceId, other: DeviceId)
    requires Extends(before, after, id) && other != id
    ensures Own(after, other) == Own(before, other)
    decreases |after|
  {
    if after != [] {
      var n := |after|;
      if |before| == n {
        OwnOthers(before[..n - 1], after[..n - 1], id, other);
      } else {
        OwnOthers(before, after[..n - 1], id, other);
      }
    }
  }

  lemma OwnAppend(events: seq<Event>, e: Event, id: DeviceId)
    ensures Own(events + [e], id) == Own(events, id) + (if e.device == id then [e] else [])
  {
    assert (events + [e])[..|events|] == events;
  }

  lemma {:induction false} NoRowNoLatest(events: seq<Event>, id: DeviceId)
    requires Own(events, id) == []
    ensures LatestRow(events, id) == 0
  {
    if events != [] { NoRowNoLatest(events[..|events| - 1], id); }
  }

  // ---- the invariant tying tables to the history of one device ----

  /** The loaded state says exactly what the accepted entries say. */
  ghost predicate Matches(events: seq<Event>, a: Log, id: DeviceId, s: Checkpoint) {
    var n := |a|;
    && s.last == LastAt(a)
    && s.binding == Bound(a, n)
    && s.low == (if Fresh(a, n) && !On(a, n - 1) then 1 else 0)
    && (s.eventId != 0 <==> Fresh(a, n))
    && (Fresh(a, n) ==> LastOwn(events, s.eventId, id) && s.started == events[s.eventId - 1].start)
  }

  ghost predicate Tracks(t: Tables, a: Log, id: DeviceId) {
    && Own(t.events, id) == Segments(a)
    && (id in t.checkpoints <==> a != [])
    && (id in t.checkpoints ==> Matches(t.events, a, id, t.checkpoints[id]))
  }

  lemma LoadMatches(t: Tables, a: Log, id: DeviceId)
    requires Tracks(t, a, id)
    ensures Matches(t.events, a, id, Load(t, id))
  {
    if a == [] { NoRowNoLatest(t.events, id); }
  }

  /** The rows of the device once a split, if the entry brings one, has closed its open row. */
  function AfterSplit(a: Log, e: Entry): seq<Event> {
    var es := Segments(a);
    if es != [] && Fresh(a, |a|) && Splits(a + [e], |a|)
    then es[|es| - 1 := Ended(es[|es| - 1], LastAt(a), es[|es| - 1].start)]
    else es
  }

  /** An event is open before the entry is classified. */
  predicate StillOpen(a: Log, e: Entry) {
    Fresh(a, |a|) && !Splits(a + [e], |a|)
  }

  lemma RebindTracks(t: Tables, a: Log, e: Entry)
    requires Tracks(t, a, e.device)
    ensures var s := Load(t, e.device);
            var d := Rebind(Retire(Draft(t.events, s)), e.binding);
            && d.s.binding == Bound(a + [e], |a| + 1)
            && (d.s.eventId != 0 <==> StillOpen(a, e))
            && (StillOpen(a, e) ==> d.events == t.events && d.s == s.(binding := d.s.binding))
            && (!StillOpen(a, e) ==> d.s.low == 0)
            && |d.events| == |t.events|
            && Extends(t.events, d.events, e.device)
            && Own(d.events, e.device) == AfterSplit(a, e)
  {
    var s := Load(t, e.device);
    LoadMatches(t, a, e.device);
    BoundPrefix(a, e, |a|);
    assert Retire(Draft(t.events, s)) == Draft(t.events, s);
    if Fresh(a, |a|) && Splits(a + [e], |a|) {
      SplitClosesRow(t, a, e, s);
    }
  }

  lemma SplitClosesRow(t: Tables, a: Log, e: Entry, s: Checkpoint)
    requires Own(t.events, e.device) == Segments(a) && Matches(t.events, a, e.device, s)
    requires Fresh(a, |a|) && Splits(a + [e], |a|)
    ensures var after := CloseRow(t.events, s.eventId, s.last, s.started);
            && |after| == |t.events|
            && Extends(t.events, after, e.device)
            && Own(after, e.device) == AfterSplit(a, e)
  {
    OpenIsLast(a);
    ClosedRow(t.events, e.device, s, Segments(a));
  }

  /** Closing a device's last, open row. */
  lemma ClosedRow(events: seq<Event>, id: DeviceId, s: Checkpoint, rows: seq<Event>)
    requires LastOwn(events, s.eventId, id) && s.started == events[s.eventId - 1].start
    requires rows == Own(events, id) && rows != [] && rows[|rows| - 1].end.None?
    ensures var after := CloseRow(events, s.eventId, s.last, s.started);
            && |after| == |events| && Extends(events, after, id)
            && Own(after, id) == rows[|rows| - 1 := Ended(rows[|rows| - 1], s.last, rows[|rows| - 1].start)]
  {
    var row := events[s.eventId - 1];
    OwnUpdate(events, s.eventId, Ended(row, s.last, s.started));
    assert row == rows[|rows| - 1];
    assert CloseRow(events, s.eventId, s.last, s.started) == events[s.eventId - 1 := Ended(row, s.last, s.started)];
  }

  /** The row update an entry makes on a device whose event stays open across the binding check. */
  function CarryRow(a: Log, e: Entry, rows: seq<Event>, s: Checkpoint): seq<Event>
    requires |a| > 0
  {
    if Running(e.reading) then BumpRow(rows, s.eventId, e.reading)
    else if !On(a, |a| - 1) then CloseRow(rows, s.eventId, e.reading.at, s.started)
    else rows
  }

  /** Replacing a device's last row by a later version of it. */
  lemma ReplaceLast(events: seq<Event>, rowId: nat, e: Event)
    requires LastOwn(events, rowId, e.device) && e.start == events[rowId - 1].start
    ensures var after := events[rowId - 1 := e];
            var rows := Own(events, e.device);
            && LastOwn(after, rowId, e.device)
            && Extends(events, after, e.device)
            && rows != [] && rows[|rows| - 1] == events[rowId - 1]
            && Own(after, e.device) == rows[|rows| - 1 := e]
  {
    OwnUpdate(events, rowId, e);
  }

  lemma CarryRowIsCarry(a: Log, e: Entry, events: seq<Event>, s: Checkpoint)
    requires |a| > 0 && s.last == LastAt(a) && !Splits(a + [e], |a|)
    requires LastOwn(events, s.eventId, e.device) && s.started == events[s.eventId - 1].start
    requires events[s.eventId - 1].end.None?
    ensures CarryRow(a, e, events, s) == events[s.eventId - 1 := Carry(a, e, events[s.eventId - 1])]
  {
  }

  lemma CarryRowTracks(t: Tables, a: Log, e: Entry, s: Checkpoint)
    requires Own(t.events, e.device) == Segments(a) && Matches(t.events, a, e.device, s)
    requires StillOpen(a, e)
    ensures var after := CarryRow(a, e, t.events, s);
            && |after| == |t.events|
            && LastOwn(after, s.eventId, e.device) && after[s.eventId - 1].start == s.started
            && Extends(t.events, after, e.device)
            && Own(after, e.device) == Segments(a + [e])
  {
    var row := t.events[s.eventId - 1];
    ReplaceLast(t.events, s.eventId, Carry(a, e, row));
    SegmentsStep(a, e);
    FreshPrefix(a, e, |a|);
    CarryRowIsCarry(a, e, t.events, s);
  }

  /** The state after an entry that finds the event open: extended, low for the first time, or closed. */
  ghost predicate CarriedState(a: Log, e: Entry, s: Checkpoint, after: Checkpoint)
    requires |a| > 0
  {
    && after.binding == Bound(a + [e], |a| + 1) && after.started == s.started
    && if Running(e.reading) then after.eventId == s.eventId && after.low == 0
       else if On(a, |a| - 1) then after.eventId == s.eventId && after.low == 1
       else after.eventId == 0 && after.low == 0
  }

  lemma TransitionOfOpen(t: Tables, a: Log, e: Entry)
    requires Tracks(t, a, e.device) && StillOpen(a, e)
    ensures var s, d := Load(t, e.device), Transition(t, e.device, e.binding, e.reading);
            d.events == CarryRow(a, e, t.events, s) && CarriedState(a, e, s, d.s)
  {
    LoadMatches(t, a, e.device);
    RebindTracks(t, a, e);
  }

  lemma CarriedMatches(a: Log, e: Entry, events: seq<Event>, s: Checkpoint, after: Checkpoint)
    requires StillOpen(a, e) && s.eventId != 0 && CarriedState(a, e, s, after)
    requires LastOwn(events, s.eventId, e.device) && events[s.eventId - 1].start == s.started
    ensures Matches(events, a + [e], e.device, after.(last := e.reading.at))
  {
    FreshStep(a, e);
    SplitsPrefix(a, e, |a| - 1);
  }

  lemma ClassifyOpen(t: Tables, a: Log, e: Entry)
    requires Tracks(t, a, e.device) && e.reading.at > LastAt(a) && StillOpen(a, e)
    ensures var d := Transition(t, e.device, e.binding, e.reading);
            && Own(d.events, e.device) == Segments(a + [e])
            && Matches(d.events, a + [e], e.device, d.s.(last := e.reading.at))
            && Extends(t.events, d.events, e.device)
  {
    var s, d := Load(t, e.device), Transition(t, e.device, e.binding, e.reading);
    LoadMatches(t, a, e.device);
    TransitionOfOpen(t, a, e);
    CarryRowTracks(t, a, e, s);
    CarriedMatches(a, e, d.events, s, d.s);
  }

  lemma ClassifyClosed(t: Tables, a: Log, e: Entry)
    requires Tracks(t, a, e.device) && e.reading.at > LastAt(a) && !StillOpen(a, e)
    ensures var d := Transition(t, e.device, e.binding, e.reading);
            && Own(d.events, e.device) == Segments(a + [e])
            && Matches(d.events, a + [e], e.device, d.s.(last := e.reading.at))
            && Extends(t.events, d.events, e.device)
  {
    var id, r := e.device, e.reading;
    var d := Rebind(Retire(Draft(t.events, Load(t, id))), e.binding);
    RebindTracks(t, a, e);
    SegmentsStep(a, e);
    FreshStep(a, e);
    OwnAppend(d.events, NewEvent(id, r), id);
  }

  /** What one call that is not too old does to the rows, and to the state of its own device. */
  lemma TransitionTracks(t: Tables, a: Log, e: Entry)
    requires Tracks(t, a, e.device) && e.reading.at > LastAt(a)
    ensures var d := Transition(t, e.device, e.binding, e.reading);
            && Own(d.events, e.device) == Segments(a + [e])
            && Matches(d.events, a + [e], e.device, d.s.(last := e.reading.at))
            && Extends(t.events, d.events, e.device)
  {
    if StillOpen(a, e) { ClassifyOpen(t, a, e); } else { ClassifyClosed(t, a, e); }
  }

  /** Rows of its own only keep another device's state valid. */
  lemma OtherStillTracks(t: Tables, u: Tables, id: DeviceId, other: DeviceId, own: Log)
    requires Tracks(t, own, other) && Extends(t.events, u.events, id) && other != id
    requires (other in u.checkpoints <==> other in t.checkpoints)
    requires other in u.checkpoints ==> u.checkpoints[other] == t.checkpoints[other]
    ensures Tracks(u, own, other)
  {
    OwnOthers(t.events, u.events, id, other);
  }

  /** One call: the device takes the entry exactly when it advances; other devices are untouched. */
  lemma RecordTracks(t: Tables, a: Log, e: Entry, id: DeviceId, own: Log)
    requires Tracks(t, a, e.device) && Tracks(t, own, id) && (id == e.device ==> own == a)
    ensures Tracks(Record(t, e.device, e.binding, e.reading).tables,
                   if id == e.device && e.reading.at > LastAt(a) then own + [e] else own, id)
  {
    LoadMatches(t, a, e.device);
    if e.reading.at > LastAt(a) {
      TransitionTracks(t, a, e);
      if id != e.device {
        OtherStillTracks(t, Record(t, e.device, e.binding, e.reading).tables, e.device, id, own);
      }
    }
  }

  lemma {:induction false} RunTracks(t: Tables, h: Log, id: DeviceId)
    requires t.events == [] && t.checkpoints == map[]
    ensures Tracks(Run(t, h), Accepted(h, id), id)
  {
    if h != [] {
      var p, e := h[..|h| - 1], h[|h| - 1];
      RunTracks(t, p, id);
      RunTracks(t, p, e.device);
      RecordTracks(Run(t, p), Accepted(p, e.device), e, id, Accepted(p, id));
    }
  }

  // ---- main results on the event table ----

  /** The rows of every device are the segmentation of the readings it accepted. */
  lemma EventsAreSegments(h: Log, id: DeviceId)
    ensures Own(Run(EMPTY, h).events, id) == Segments(Accepted(h, id))
  {
    RunTracks(EMPTY, h, id);
  }

  /** A log of one device in strictly increasing time, after the zero time. */
  ghost predicate Increasing(a: Log, id: DeviceId) {
    && (forall i :: 0 <= i < |a| ==> a[i].device == id)
    && (forall i :: 0 <= i < |a| ==> a[i].reading.at > ZERO_TIME)
    && (forall i, j :: 0 <= i < j < |a| ==> a[i].reading.at < a[j].reading.at)
  }

  lemma {:induction false} AcceptedIncreases(h: Log, id: DeviceId)
    ensures Increasing(Accepted(h, id), id)
  {
    if h != [] {
      AcceptedIncreases(h[..|h| - 1], id);
    }
  }

  lemma StopBeforeNextStart(a: Log, i: nat, j: nat)
    requires i < j < |a| && IsStart(a, i) && IsStart(a, j)
    ensures StopFrom(a, i + 1) <= j
  {
    assert StopFrom(a, i + 1) > j ==> !Stops(a, j) && (j - 1 > i ==> !Stops(a, j - 1));
  }

  lemma ClosedEventEnds(a: Log, id: DeviceId, i: nat)
    requires Increasing(a, id) && i < |a| && StopFrom(a, i + 1) < |a|
    ensures var ev := EventAt(a, i);
            && ev.end.Some? && ev.start <= ev.end.value && ev.duration == Some(ev.end.value - ev.start)
            && ev.end.value <= a[StopFrom(a, i + 1)].reading.at
            && (On(a, StopFrom(a, i + 1)) ==> ev.end.value < a[StopFrom(a, i + 1)].reading.at)
  {
  }

  lemma NextStartsAfter(a: Log, id: DeviceId, i: nat, j: nat)
    requires Increasing(a, id) && i < j < |a| && IsStart(a, i) && IsStart(a, j)
    ensures StopFrom(a, i + 1) < |a| && EventAt(a, i).end.Some?
    ensures EventAt(a, i).end.value < EventAt(a, j).start
  {
    StopBeforeNextStart(a, i, j);
    ClosedEventEnds(a, id, i);
  }

  lemma SegmentInOrder(a: Log, id: DeviceId, k: nat)
    requires Increasing(a, id) && k < |Segments(a)|
    ensures var es := Segments(a);
            es[k].end.Some? ==> es[k].start <= es[k].end.value && es[k].duration == Some(es[k].end.value - es[k].start)
  {
    var i := Starts(a, |a|)[k];
    if StopFrom(a, i + 1) < |a| { ClosedEventEnds(a, id, i); }
  }

  lemma SegmentBeforeNext(a: Log, id: DeviceId, k: nat)
    requires Increasing(a, id) && k + 1 < |Segments(a)|
    ensures var es := Segments(a); es[k].end.Some? && es[k].end.value < es[k + 1].start
  {
    var s := Starts(a, |a|);
    StartsAreComplete(a, |a|);
    NextStartsAfter(a, id, s[k], s[k + 1]);
  }

  /** Events end at or after they start, follow one another strictly, and only the last may be open. */
  lemma EventsAreDisjoint(h: Log, id: DeviceId, k: nat)
    requires k < |Segments(Accepted(h, id))|
    ensures var es := Segments(Accepted(h, id));
            && (es[k].end.Some? ==> es[k].start <= es[k].end.value
                                    && es[k].duration == Some(es[k].end.value - es[k].start))
            && (k + 1 < |es| ==> es[k].end.Some? && es[k].end.value < es[k + 1].start)
  {
    AcceptedIncreases(h, id);
    SegmentInOrder(Accepted(h, id), id, k);
    if k + 1 < |Segments(Accepted(h, id))| { SegmentBeforeNext(Accepted(h, id), id, k); }
  }

  function Total(es: seq<Event>): nat {
    if es == [] then 0 else Total(es[..|es| - 1]) + es[|es| - 1].samples
  }

  lemma TotalAppend(es: seq<Event>, e: Event)
    ensures Total(es + [e]) == Total(es) + e.samples
  {
    assert (es + [e])[..|es|] == es;
  }

  lemma TotalReplaceLast(es: seq<Event>, e: Event)
    requires es != []
    ensures Total(es[|es| - 1 := e]) == Total(es) - es[|es| - 1].samples + e.samples
  {
    assert es[|es| - 1 := e][..|es| - 1] == es[..|es| - 1];
  }

  /** One more entry adds one to the total exactly when it is running. */
  lemma TotalStep(p: Log, e: Entry)
    ensures Total(Segments(p + [e])) == Total(Segments(p)) + (if Running(e.reading) then 1 else 0)
  {
    var a, n, es := p + [e], |p|, Segments(p);
    SegmentsStep(p, e);
    FreshStep(p, e);
    FreshPrefix(p, e, n);
    var es1 := if Fresh(p, n) then es[|es| - 1 := Carry(p, e, es[|es| - 1])] else es;
    if Fresh(p, n) { TotalReplaceLast(es, Carry(p, e, es[|es| - 1])); }
    if IsStart(a, n) { TotalAppend(es1, NewEvent(e.device, e.reading)); } else { assert es1 + [] == es1; }
  }

  /** Every running reading the device accepted is counted by exactly one event. */
  lemma {:induction false} SamplesAreConserved(a: Log)
    ensures Total(Segments(a)) == Count(a, 0, |a|)
  {
    if a != [] {
      var n := |a| - 1;
      var p, e := a[..n], a[n];
      assert a == p + [e];
      SamplesAreConserved(p);
      TotalStep(p, e);
      TalliesPrefix(p, e, 0, n);
    }
  }

  lemma {:induction false} BoundKept(a: Log, k: nat, l: nat)
    requires k < l <= |a| && a[k].binding != ""
    requires forall m :: k < m < l ==> !Splits(a, m)
    ensures Bound(a, l) == a[k].binding
  {
    if l > k + 1 {
      BoundKept(a, k, l - 1);
      assert !Splits(a, l - 1);
    }
  }

  /** No event counts readings taken under two different non-empty bindings. */
  lemma OneBindingPerEvent(a: Log, i: nat, k: nat, l: nat)
    requires i < |a| && IsStart(a, i) && i <= k < l < StopFrom(a, i + 1)
    requires a[k].binding != "" && a[l].binding != ""
    ensures a[k].binding == a[l].binding
  {
    forall m | k < m <= l ensures !Splits(a, m) { assert !Stops(a, m); }
    BoundKept(a, k, l);
    assert !Splits(a, l);
  }

  lemma {:induction false} OwnAt(events: seq<Event>, k: nat, id: DeviceId) returns (p: nat)
    requires k < |events| && events[k].device == id
    ensures p < |Own(events, id)| && Own(events, id)[p] == events[k]
    ensures p == |Own(events, id)| - 1 <==> LastOwn(events, k + 1, id)
  {
    var n := |events|;
    if k == n - 1 {
      p := |Own(events, id)| - 1;
    } else {
      p := OwnAt(events[..n - 1], k, id);
      assert LastOwn(events, k + 1, id) <==> LastOwn(events[..n - 1], k + 1, id) && events[n - 1].device != id;
    }
  }

  lemma OpenSegment(a: Log, p: nat)
    requires p < |Segments(a)|
    ensures Segments(a)[p].end.None? <==> p == |Segments(a)| - 1 && Fresh(a, |a|)
  {
    OnlyLastOpen(a);
  }

  lemma RowIsNamed(t: Tables, a: Log, id: DeviceId, k: nat)
    requires Tracks(t, a, id) && k < |t.events| && t.events[k].device == id
    ensures id in t.checkpoints && (t.events[k].end.None? <==> t.checkpoints[id].eventId == k + 1)
  {
    var p := OwnAt(t.events, k, id);
    OpenSegment(a, p);
    var named := t.checkpoints[id].eventId;
    if named != 0 {
      var q := OwnAt(t.events, named - 1, id);
    }
  }

  lemma CheckpointIsBounded(t: Tables, a: Log, id: DeviceId)
    requires Tracks(t, a, id) && id in t.checkpoints
    ensures var s := t.checkpoints[id];
            && s.low <= 1 && (s.eventId == 0 ==> s.low == 0)
            && (s.eventId != 0 ==> s.eventId <= |t.events| && t.events[s.eventId - 1].device == id)
  {
    assert Matches(t.events, a, id, t.checkpoints[id]);
  }

  /**
   After every history a device has at most one open row, the one its checkpoint names. The debounce
   counter is at most one, and zero when nothing is open; so it is zero for a device without rows.
   */
  lemma OpenRowIsNamed(h: Log, id: DeviceId)
    ensures var t := Run(EMPTY, h);
            && (forall k :: 0 <= k < |t.events| && t.events[k].device == id ==>
                  id in t.checkpoints && (t.events[k].end.None? <==> t.checkpoints[id].eventId == k + 1))
            && (id in t.checkpoints ==>
                  var s := t.checkpoints[id];
                  && s.low <= 1 && (s.eventId == 0 ==> s.low == 0)
                  && (s.eventId != 0 ==> s.eventId <= |t.events| && t.events[s.eventId - 1].device == id))
  {
    var t := Run(EMPTY, h);
    RunTracks(EMPTY, h, id);
    if id in t.checkpoints { CheckpointIsBounded(t, Accepted(h, id), id); }
    forall k: nat | k < |t.events| && t.events[k].device == id
      ensures id in t.checkpoints && (t.events[k].end.None? <==> t.checkpoints[id].eventId == k + 1)
    {
      RowIsNamed(t, Accepted(h, id), id, k);
    }
  }
}
