/**
 What one call of the recorder reports to its caller, and what a backfill counts: both are read off
 the event table before and after, without a look at checkpoints.
 */
module ActivityOutcome {
  import opened ActivityTables
  import opened ActivityRecorder
  import opened ActivitySegments
  import opened ActivityHistory

  // ---- rows that change in place ----

  ghost predicate SameOwners(before: seq<Event>, after: seq<Event>) {
    |before| == |after| && forall k :: 0 <= k < |before| ==> before[k].device == after[k].device
  }

  lemma {:induction false} SameOwnersSameCount(before: seq<Event>, after: seq<Event>, id: DeviceId)
    requires SameOwners(before, after)
    ensures |Own(before, id)| == |Own(after, id)|
  {
    if before != [] {
      var n := |before| - 1;
      SameOwnersSameCount(before[..n], after[..n], id);
      assert before[n].device == after[n].device;
    }
  }

  lemma BeforeClassify(d: Draft, binding: string)
    ensures SameOwners(d.events, Rebind(Retire(d), binding).events)
  {
  }

  /** Classifying adds one row, exactly for a running reading that finds nothing open. */
  lemma ClassifyAdds(d: Draft, id: DeviceId, r: Reading)
    ensures var after := Classify(d, id, r).events;
            if Running(r) && d.s.eventId == 0 then after == d.events + [NewEvent(id, r)] else SameOwners(d.events, after)
  {
  }

  // ---- created ----

  /** On any tables at all: a row is reported as created exactly when the device has one more, and it is the reading's. */
  lemma CreatedIsNewRow(t: Tables, id: DeviceId, binding: string, r: Reading)
    ensures var o := Record(t, id, binding, r);
            && |Own(o.tables.events, id)| == |Own(t.events, id)| + (if o.created then 1 else 0)
            && (o.created ==> Own(o.tables.events, id)[|Own(t.events, id)|] == NewEvent(id, r))
  {
    if r.at > Load(t, id).last {
      var d := Draft(t.events, Load(t, id));
      var ready := Rebind(Retire(d), binding);
      BeforeClassify(d, binding);
      SameOwnersSameCount(t.events, ready.events, id);
      ClassifyAdds(ready, id, r);
      if Running(r) && ready.s.eventId == 0 {
        OwnAppend(ready.events, NewEvent(id, r), id);
      } else {
        SameOwnersSameCount(ready.events, Classify(ready, id, r).events, id);
      }
    }
  }

  /** On any tables at all: a replay counts the rows it adds. */
  lemma {:induction false} InsertedIsGrowth(t: Tables, id: DeviceId, rs: seq<Reading>)
    ensures |Own(Replay(t, id, rs).events, id)| == |Own(t.events, id)| + Inserted(t, id, rs)
  {
    if rs != [] {
      var front, r := rs[..|rs| - 1], rs[|rs| - 1];
      InsertedIsGrowth(t, id, front);
      CreatedIsNewRow(Replay(t, id, front), id, "", r);
    }
  }

  // ---- active ----

  ghost predicate HasOpenRow(events: seq<Event>, id: DeviceId) {
    exists k :: 0 <= k < |events| && events[k].device == id && events[k].end.None?
  }

  lemma LoadedIsOpen(h: Log, id: DeviceId)
    ensures Load(Run(EMPTY, h), id).eventId != 0 <==> HasOpenRow(Run(EMPTY, h).events, id)
  {
    var t := Run(EMPTY, h);
    OpenRowIsNamed(h, id);
    if id !in t.checkpoints {
      RunTracks(EMPTY, h, id);
      LoadMatches(t, Accepted(h, id), id);
    } else if t.checkpoints[id].eventId != 0 {
      assert t.events[t.checkpoints[id].eventId - 1].end.None?;
    }
  }

  lemma ActiveIsLoaded(t: Tables, id: DeviceId, binding: string, r: Reading)
    ensures var o := Record(t, id, binding, r); o.active <==> Load(o.tables, id).eventId != 0
  {
  }

  /** After any history, and whether or not the reading is taken: active means that the device has an open row. */
  lemma ActiveIsOpenRow(h: Log, e: Entry)
    ensures var o := Record(Run(EMPTY, h), e.device, e.binding, e.reading);
            o.active <==> HasOpenRow(o.tables.events, e.device)
  {
    assert (h + [e])[..|h|] == h;
    ActiveIsLoaded(Run(EMPTY, h), e.device, e.binding, e.reading);
    LoadedIsOpen(h + [e], e.device);
  }
}
