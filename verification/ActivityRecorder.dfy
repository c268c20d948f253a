/**
 The activity recorder: one transition per reading, committed together with the raw sample and the
 checkpoint, and the backfill that replays retained samples through the same transition.
 */
module ActivityRecorder {
  import opened ActivityTables

  datatype Outcome = Outcome(tables: Tables, active: bool, created: bool)

  /** Rows and state of one device in the middle of a transaction. */
  datatype Draft = Draft(events: seq<Event>, s: Checkpoint)

  function CloseOpen(d: Draft, end: Time): Draft {
    Draft(CloseRow(d.events, d.s.eventId, end, d.s.started), d.s.(eventId := 0, low := 0))
  }

  /** A legacy process may have stored the second low sample and stopped before closing its event. */
  function Retire(d: Draft): Draft {
    if d.s.eventId != 0 && d.s.low >= 2 then CloseOpen(d, d.s.last) else d
  }

  /** A reading under another non-empty binding splits the open event at the previous reading. */
  function Rebind(d: Draft, binding: string): Draft {
    var split := d.s.eventId != 0 && binding != "" && d.s.binding != "" && binding != d.s.binding;
    var d1 := if split then CloseOpen(d, d.s.last) else d;
    if binding != "" then d1.(s := d1.s.(binding := binding)) else d1
  }

  /** One running sample opens or extends an event, the second low in a row closes it. */
  function Classify(d: Draft, id: DeviceId, r: Reading): Draft {
    if Running(r) then
      if d.s.eventId == 0
      then Draft(d.events + [NewEvent(id, r)], d.s.(low := 0, eventId := |d.events| + 1, started := r.at))
      else Draft(BumpRow(d.events, d.s.eventId, r), d.s.(low := 0))
    else if d.s.eventId != 0 then
      var d1 := d.(s := d.s.(low := d.s.low + 1));
      if d1.s.low >= 2 then CloseOpen(d1, r.at) else d1
    else d
  }

  function Transition(t: Tables, id: DeviceId, binding: string, r: Reading): Draft {
    Classify(Rebind(Retire(Draft(t.events, Load(t, id))), binding), id, r)
  }

  function Commit(t: Tables, id: DeviceId, d: Draft, r: Reading): Tables {
    Tables(d.events,
           t.checkpoints[id := d.s.(last := r.at)],
           DeleteBefore(t.samples[id := InsertOrIgnore(Rows(t.samples, id), r)], r.at - DAY))
  }

  /** What one call does to the tables when nothing fails. */
  function Record(t: Tables, id: DeviceId, binding: string, r: Reading): Outcome {
    var s := Load(t, id);
    if r.at <= s.last then Outcome(t, s.eventId != 0, false)
    else
      var d := Transition(t, id, binding, r);
      Outcome(Commit(t, id, d, r), d.s.eventId != 0,
              Running(r) && Rebind(Retire(Draft(t.events, s)), binding).s.eventId == 0)
  }

  /** Replaying samples, without a binding, in the given order. */
  function Replay(t: Tables, id: DeviceId, rs: seq<Reading>): Tables {
    if rs == [] then t
    else Record(Replay(t, id, rs[..|rs| - 1]), id, "", rs[|rs| - 1]).tables
  }

  function Inserted(t: Tables, id: DeviceId, rs: seq<Reading>): nat {
    if rs == [] then 0
    else
      var earlier := rs[..|rs| - 1];
      Inserted(t, id, earlier) + (if Record(Replay(t, id, earlier), id, "", rs[|rs| - 1]).created then 1 else 0)
  }

  /** Legacy raw sample: stored without looking at any event. */
  function StoreRaw(t: Tables, id: DeviceId, r: Reading): Tables {
    t.(samples := DeleteBefore(t.samples[id := InsertOrReplace(Rows(t.samples, id), r)], r.at - DAY))
  }

  /** The statements of one transaction, each of which may fail. */
  datatype Statement = Begin | LoadState | CloseRetired | CloseSplit | Insert | Bump | CloseLow
                     | SaveCheckpoint | SaveSample | DeleteOld | CommitAll

  /** The two statements of a raw sample, which are not one transaction. */
  datatype RawStatement = ReplaceSample | DeleteOldRaw

  function StoreSample(t: Tables, id: DeviceId, r: Reading): Tables {
    t.(samples := t.samples[id := InsertOrReplace(Rows(t.samples, id), r)])
  }

  class DB {
    var events: seq<Event>
    var checkpoints: map<DeviceId, Checkpoint>
    var samples: map<DeviceId, seq<Reading>>

    function View(): Tables
      reads this
    {
      Tables(events, checkpoints, samples)
    }

    constructor ()
      ensures View() == EMPTY
    {
      events, checkpoints, samples := [], map[], map[];
    }

    /** The transaction works on copies; only the commit touches the tables. */
    method RecordEquipmentReading(id: DeviceId, binding: string, r: Reading, failing: set<Statement>)
      returns (active: bool, created: bool, ok: bool)
      modifies this
      ensures ok ==> Outcome(View(), active, created) == Record(old(View()), id, binding, r)
      ensures !ok ==> View() == old(View())
      ensures failing == {} ==> ok
    {
      active, created, ok := false, false, false;
      if Begin in failing || LoadState in failing { return; }
      var s := Load(View(), id);
      if r.at <= s.last {
        return s.eventId != 0, false, true;
      }
      var txEvents := events;
      ghost var d0 := Draft(events, s);
      if s.eventId != 0 && s.low >= 2 {
        if CloseRetired in failing { return; }
        txEvents := CloseRow(txEvents, s.eventId, s.last, s.started);
        s := s.(eventId := 0);
        s := s.(low := 0);
      }
      assert Draft(txEvents, s) == Retire(d0);
      if s.eventId != 0 && binding != "" && s.binding != "" && binding != s.binding {
        if CloseSplit in failing { return; }
        txEvents := CloseRow(txEvents, s.eventId, s.last, s.started);
        s := s.(eventId := 0);
        s := s.(low := 0);
      }
      if binding != "" {
        s := s.(binding := binding);
      }
      assert Draft(txEvents, s) == Rebind(Retire(d0), binding);
      var isNew := false;
      if Running(r) {
        s := s.(low := 0);
        if s.eventId == 0 {
          if Insert in failing { return; }
          txEvents := txEvents + [NewEvent(id, r)];
          s := s.(eventId := |txEvents|);
          s := s.(started := r.at);
          isNew := true;
        } else {
          if Bump in failing { return; }
          txEvents := BumpRow(txEvents, s.eventId, r);
        }
      } else if s.eventId != 0 {
        s := s.(low := s.low + 1);
        if s.low >= 2 {
          if CloseLow in failing { return; }
          txEvents := CloseRow(txEvents, s.eventId, r.at, s.started);
          s := s.(eventId := 0);
          s := s.(low := 0);
        }
      }
      ghost var d := Classify(Rebind(Retire(d0), binding), id, r);
      assert Draft(txEvents, s) == d;
      assert Outcome(Commit(View(), id, d, r), d.s.eventId != 0, isNew) == Record(View(), id, binding, r);
      s := s.(last := r.at);
      if SaveCheckpoint in failing { return; }
      var txCheckpoints := checkpoints[id := s];
      if SaveSample in failing { return; }
      var txSamples := samples[id := InsertOrIgnore(Rows(samples, id), r)];
      if DeleteOld in failing { return; }
      txSamples := DeleteBefore(txSamples, r.at - DAY);
      active, created := s.eventId != 0, isNew;
      if CommitAll in failing { return; }
      events, checkpoints, samples := txEvents, txCheckpoints, txSamples;
      ok := true;
    }

    /** When the cleanup fails the sample stays. */
    method RecordOutletSample(id: DeviceId, r: Reading, failing: set<RawStatement>) returns (ok: bool)
      modifies this
      ensures ok <==> ReplaceSample !in failing && DeleteOldRaw !in failing
      ensures ok ==> View() == StoreRaw(old(View()), id, r)
      ensures ReplaceSample in failing ==> View() == old(View())
      ensures !ok && ReplaceSample !in failing ==> View() == StoreSample(old(View()), id, r)
    {
      if ReplaceSample in failing { return false; }
      samples := samples[id := InsertOrReplace(Rows(samples, id), r)];
      if DeleteOldRaw in failing { return false; }
      samples := DeleteBefore(samples, r.at - DAY);
      return true;
    }

    /** The query may fail, and statements of the transaction for reading number k; the replay stops there. */
    method BackfillEquipmentEvents(id: DeviceId, since: Time, queryOk: bool, failing: map<nat, set<Statement>>)
      returns (inserted: nat, ok: bool)
      modifies this
      ensures ok ==>
                var rs := Since(Rows(old(samples), id), since);
                queryOk && View() == Replay(old(View()), id, rs) && inserted == Inserted(old(View()), id, rs)
      ensures !queryOk ==> View() == old(View()) && inserted == 0
      ensures !ok && queryOk ==>
                exists k: nat | k < |Since(Rows(old(samples), id), since)| ::
                  && k in failing
                  && View() == Replay(old(View()), id, Since(Rows(old(samples), id), since)[..k])
                  && inserted == Inserted(old(View()), id, Since(Rows(old(samples), id), since)[..k])
      ensures queryOk && failing == map[] ==> ok
    {
      if !queryOk { return 0, false; }
      var rs := Since(Rows(samples, id), since);
      inserted := 0;
      var i := 0;
      while i < |rs|
        invariant 0 <= i <= |rs|
        invariant rs == Since(Rows(old(samples), id), since)
        invariant View() == Replay(old(View()), id, rs[..i])
        invariant inserted == Inserted(old(View()), id, rs[..i])
      {
        var _, created, committed := RecordEquipmentReading(id, "", rs[i], if i in failing then failing[i] else {});
        if !committed {
          return inserted, false;
        }
        assert rs[..i + 1][..i] == rs[..i];
        if created {
          inserted := inserted + 1;
        }
        i := i + 1;
      }
      assert rs[..|rs|] == rs;
      ok := true;
    }
  }
}
