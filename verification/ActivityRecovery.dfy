/**
 Main results about crashes, replays and backfills.
 */
module ActivityRecovery {
  import opened ActivityTables
  import opened ActivityRecorder
  import opened ActivitySegments
  import opened ActivityHistory

  // ---- the stored samples ----

  function Readings(a: Log): (rs: seq<Reading>)
    ensures |rs| == |a|
    ensures forall i :: 0 <= i < |a| ==> rs[i] == a[i].reading
  {
    seq(|a|, i requires 0 <= i < |a| => a[i].reading)
  }

  ghost predicate Sorted(rows: seq<Reading>) {
    forall i, j :: 0 <= i < j < |rows| ==> rows[i].at < rows[j].at
  }

  /** rows are the last ones of the readings of a. */
  ghost predicate Suffix(rows: seq<Reading>, a: Log) {
    |rows| <= |a| && rows == Readings(a)[|a| - |rows|..]
  }

  lemma {:induction false} SinceFrom(rows: seq<Reading>, cutoff: Time, k: nat)
    requires k <= |rows|
    requires forall i :: 0 <= i < k ==> rows[i].at < cutoff
    requires forall i :: k <= i < |rows| ==> rows[i].at >= cutoff
    ensures Since(rows, cutoff) == rows[k..]
  {
    if rows != [] {
      var n := |rows| - 1;
      var q := rows[..n];
      if k == |rows| {
        SinceFrom(q, cutoff, n);
        assert q[n..] == [] && rows[k..] == [];
      } else {
        SinceFrom(q, cutoff, k);
        assert rows[k..] == q[k..] + [rows[n]];
      }
    }
  }

  lemma SinceIsSuffix(rows: seq<Reading>, cutoff: Time) returns (k: nat)
    requires Sorted(rows)
    ensures k <= |rows| && Since(rows, cutoff) == rows[k..]
    ensures forall i :: 0 <= i < k ==> rows[i].at < cutoff
    ensures forall i :: k <= i < |rows| ==> rows[i].at >= cutoff
  {
    k := 0;
    while k < |rows| && rows[k].at < cutoff
      invariant 0 <= k <= |rows|
      invariant forall i :: 0 <= i < k ==> rows[i].at < cutoff
    {
      k := k + 1;
    }
    SinceFrom(rows, cutoff, k);
  }

  // ---- what the sample statements keep ----

  /** The cleanup keeps exactly the rows that are not older than the cutoff. */
  lemma {:induction false} SinceHolds(rows: seq<Reading>, cutoff: Time)
    ensures forall x :: x in Since(rows, cutoff) <==> x in rows && x.at >= cutoff
  {
    if rows != [] {
      var n := |rows| - 1;
      SinceHolds(rows[..n], cutoff);
      assert rows == rows[..n] + [rows[n]];
    }
  }

  ghost predicate Taken(rows: seq<Reading>, at: Time) {
    exists y :: y in rows && y.at == at
  }

  /** A new sample goes in exactly when its time is free, and nothing else changes. */
  lemma {:induction false} IgnoreHolds(rows: seq<Reading>, r: Reading)
    requires Sorted(rows)
    ensures Sorted(InsertOrIgnore(rows, r))
    ensures forall x :: x in InsertOrIgnore(rows, r) <==> x in rows || (x == r && !Taken(rows, r.at))
  {
    if rows != [] {
      var q, last := rows[..|rows| - 1], rows[|rows| - 1];
      assert rows == q + [last];
      if r.at < last.at {
        IgnoreHolds(q, r);
        assert Taken(rows, r.at) <==> Taken(q, r.at);
        SortedPush(InsertOrIgnore(q, r), last);
      } else if r.at > last.at {
        SortedPush(rows, r);
      }
    }
  }

  /** A legacy sample goes in for good: it replaces the row of its time, and nothing else changes. */
  lemma {:induction false} ReplaceHolds(rows: seq<Reading>, r: Reading)
    requires Sorted(rows)
    ensures Sorted(InsertOrReplace(rows, r))
    ensures forall x :: x in InsertOrReplace(rows, r) <==> x == r || (x in rows && x.at != r.at)
  {
    if rows != [] {
      var q, last := rows[..|rows| - 1], rows[|rows| - 1];
      assert rows == q + [last];
      if r.at < last.at {
        ReplaceHolds(q, r);
        SortedPush(InsertOrReplace(q, r), last);
      } else if r.at > last.at {
        SortedPush(rows, r);
      } else {
        assert rows[|q| := r] == q + [r];
      }
    }
  }

  lemma SortedPush(rows: seq<Reading>, last: Reading)
    requires Sorted(rows) && forall x :: x in rows ==> x.at < last.at
    ensures Sorted(rows + [last])
  {
  }

  lemma SuffixKept(rows: seq<Reading>, a: Log, id: DeviceId, cutoff: Time)
    requires Increasing(a, id) && Suffix(rows, a)
    ensures Suffix(Since(rows, cutoff), a)
  {
    forall i, j | 0 <= i < j < |rows| ensures rows[i].at < rows[j].at {
      assert rows[i] == a[|a| - |rows| + i].reading && rows[j] == a[|a| - |rows| + j].reading;
    }
    var k := SinceIsSuffix(rows, cutoff);
    assert rows[k..] == Readings(a)[|a| - |rows| + k..];
  }

  lemma SuffixExtended(rows: seq<Reading>, a: Log, e: Entry)
    requires Suffix(rows, a) && e.reading.at > LastAt(a)
    ensures InsertOrIgnore(rows, e.reading) == rows + [e.reading]
    ensures Suffix(rows + [e.reading], a + [e])
  {
    if rows != [] { assert rows[|rows| - 1] == a[|a| - 1].reading; }
    assert Readings(a + [e]) == Readings(a) + [e.reading];
  }

  lemma RecordSamples(t: Tables, e: Entry, id: DeviceId)
    requires e.reading.at > Load(t, e.device).last
    ensures var before := Rows(t.samples, id);
            Rows(Record(t, e.device, e.binding, e.reading).tables.samples, id) ==
            Since(if id == e.device then InsertOrIgnore(before, e.reading) else before, e.reading.at - DAY)
  {
  }

  /** The samples kept for a device are always the most recent readings it accepted. */
  lemma {:induction false} SamplesAreSuffix(h: Log, id: DeviceId)
    ensures Suffix(Rows(Run(EMPTY, h).samples, id), Accepted(h, id))
  {
    if h != [] {
      var p, e := h[..|h| - 1], h[|h| - 1];
      SamplesAreSuffix(p, id);
      RunTracks(EMPTY, p, e.device);
      LoadMatches(Run(EMPTY, p), Accepted(p, e.device), e.device);
      if e.reading.at > LastAt(Accepted(p, e.device)) {
        RecordSamples(Run(EMPTY, p), e, id);
        SuffixStep(Rows(Run(EMPTY, p).samples, id), p, e, id);
      }
    }
  }

  lemma AcceptedStep(p: Log, e: Entry, id: DeviceId)
    ensures Accepted(p + [e], id) ==
            if e.device == id && e.reading.at > LastAt(Accepted(p, id)) then Accepted(p, id) + [e] else Accepted(p, id)
  {
    assert (p + [e])[..|p|] == p;
  }

  lemma SuffixStep(rows: seq<Reading>, p: Log, e: Entry, id: DeviceId)
    requires Suffix(rows, Accepted(p, id)) && (id == e.device ==> e.reading.at > LastAt(Accepted(p, id)))
    ensures Suffix(Since(if id == e.device then InsertOrIgnore(rows, e.reading) else rows, e.reading.at - DAY),
                   Accepted(p + [e], id))
  {
    var a := Accepted(p, id);
    AcceptedStep(p, e, id);
    AcceptedIncreases(p, id);
    AcceptedIncreases(p + [e], id);
    if id == e.device {
      SuffixExtended(rows, a, e);
      SuffixKept(rows + [e.reading], a + [e], id, e.reading.at - DAY);
    } else {
      SuffixKept(rows, a, id, e.reading.at - DAY);
    }
  }

  lemma SuffixNotAfter(rows: seq<Reading>, a: Log, id: DeviceId)
    requires Increasing(a, id) && Suffix(rows, a)
    ensures forall r :: r in rows ==> r.at <= LastAt(a)
  {
    forall r | r in rows ensures r.at <= LastAt(a) {
      var i :| 0 <= i < |rows| && rows[i] == r;
      assert rows[i] == a[|a| - |rows| + i].reading;
    }
  }

  // ---- replay after live recording ----

  lemma {:induction false} ReplayOfPast(t: Tables, id: DeviceId, rs: seq<Reading>)
    requires forall r :: r in rs ==> r.at <= Load(t, id).last
    ensures Replay(t, id, rs) == t && Inserted(t, id, rs) == 0
  {
    if rs != [] {
      ReplayOfPast(t, id, rs[..|rs| - 1]);
      assert rs[|rs| - 1] in rs;
    }
  }

  /** Backfill after live recording, from any time on, changes nothing and inserts nothing. */
  lemma BackfillIsIdle(h: Log, id: DeviceId, since: Time)
    ensures var t := Run(EMPTY, h);
            var rs := Since(Rows(t.samples, id), since);
            && (forall k :: 0 <= k <= |rs| ==> Replay(t, id, rs[..k]) == t)
            && Inserted(t, id, rs) == 0
  {
    var t, a := Run(EMPTY, h), Accepted(h, id);
    var rows := Rows(t.samples, id);
    var rs := Since(rows, since);
    SamplesAreSuffix(h, id);
    AcceptedIncreases(h, id);
    RunTracks(EMPTY, h, id);
    LoadMatches(t, a, id);
    SuffixKept(rows, a, id, since);
    SuffixNotAfter(rs, a, id);
    forall k | 0 <= k <= |rs| ensures Replay(t, id, rs[..k]) == t {
      forall r | r in rs[..k] ensures r in rs {}
      ReplayOfPast(t, id, rs[..k]);
    }
    ReplayOfPast(t, id, rs);
  }

  /** A live call, which may be lost before its commit, or a backfill stopped after some readings. */
  datatype Op = Call(entry: Entry, committed: bool) | Backfill(id: DeviceId, since: Time, stop: nat)

  function Perform(t: Tables, op: Op): Tables {
    match op
    case Call(e, committed) =>
      if committed then Record(t, e.device, e.binding, e.reading).tables else t
    case Backfill(id, since, stop) =>
      var rs := Since(Rows(t.samples, id), since);
      Replay(t, id, if stop <= |rs| then rs[..stop] else rs)
  }

  function PerformAll(t: Tables, ops: seq<Op>): Tables {
    if ops == [] then t else Perform(PerformAll(t, ops[..|ops| - 1]), ops[|ops| - 1])
  }

  function Committed(ops: seq<Op>): Log {
    if ops == [] then []
    else
      var op := ops[|ops| - 1];
      Committed(ops[..|ops| - 1]) + (if op.Call? && op.committed then [op.entry] else [])
  }

  /** Crashes before commit and backfills at any moment leave a trace of the committed calls only. */
  lemma {:induction false} CrashesAndReplaysAreInvisible(ops: seq<Op>)
    ensures PerformAll(EMPTY, ops) == Run(EMPTY, Committed(ops))
  {
    if ops != [] {
      var n := |ops| - 1;
      var op, h := ops[n], Committed(ops[..n]);
      CrashesAndReplaysAreInvisible(ops[..n]);
      if op.Backfill? {
        var rs := Since(Rows(Run(EMPTY, h).samples, op.id), op.since);
        BackfillIsIdle(h, op.id, op.since);
        assert rs[..|rs|] == rs;
        assert h + [] == h;
      } else if op.committed {
        assert (h + [op.entry])[..|h|] == h;
      } else {
        assert h + [] == h;
      }
    }
  }

  // ---- replay into fresh tables ----

  /** No entry switches between non-empty bindings. */
  ghost predicate Unsplit(a: Log) {
    forall i :: 0 <= i < |a| ==> !Splits(a, i)
  }

  lemma UnsplitPrefix(a: Log, e: Entry)
    requires Unsplit(a + [e])
    ensures Unsplit(a) && !Splits(a + [e], |a|)
  {
    forall i | 0 <= i < |a| ensures !Splits(a, i) { SplitsPrefix(a, e, i); }
    assert !Splits(a + [e], |a|);
  }

  ghost predicate SameReadings(a: Log, b: Log) {
    |a| == |b| && forall i :: 0 <= i < |a| ==> a[i].reading == b[i].reading && a[i].device == b[i].device
  }

  /** Without a split an entry is taken the same way by two logs of the same readings. */
  lemma CarryInStep(p: Log, e: Entry, q: Log, f: Entry, ev: Event)
    requires SameReadings(p, q) && e.reading == f.reading && p != []
    requires !Splits(p + [e], |p|) && !Splits(q + [f], |q|)
    ensures Carry(p, e, ev) == Carry(q, f, ev)
  {
    assert On(p, |p| - 1) == On(q, |q| - 1);
  }

  lemma FreshInStep(p: Log, e: Entry, q: Log, f: Entry)
    requires SameReadings(p, q) && e.reading == f.reading && Fresh(p, |p|) == Fresh(q, |q|)
    requires !Splits(p + [e], |p|) && !Splits(q + [f], |q|)
    ensures IsStart(p + [e], |p|) == IsStart(q + [f], |q|)
    ensures Fresh(p + [e], |p| + 1) == Fresh(q + [f], |q| + 1)
  {
    var n := |p|;
    FreshPrefix(p, e, n);
    FreshPrefix(q, f, n);
    if n > 0 {
      SplitsPrefix(p, e, n - 1);
      SplitsPrefix(q, f, n - 1);
      assert On(p, n - 1) == On(q, n - 1);
    }
  }

  lemma SegmentsInStep(p: Log, e: Entry, q: Log, f: Entry)
    requires SameReadings(p, q) && e.reading == f.reading && e.device == f.device
    requires Segments(p) == Segments(q) && Fresh(p, |p|) == Fresh(q, |q|)
    requires !Splits(p + [e], |p|) && !Splits(q + [f], |q|)
    ensures Segments(p + [e]) == Segments(q + [f])
  {
    FreshInStep(p, e, q, f);
    SegmentsStep(p, e);
    SegmentsStep(q, f);
    var es := Segments(p);
    if Fresh(p, |p|) {
      CarryInStep(p, e, q, f, es[|es| - 1]);
      assert es[|es| - 1 := Carry(p, e, es[|es| - 1])] == es[|es| - 1 := Carry(q, f, es[|es| - 1])];
    }
  }

  /** Without splits the segmentation depends on the readings alone. */
  lemma {:induction false} SegmentsOfReadings(a: Log, b: Log)
    requires Unsplit(a) && Unsplit(b) && SameReadings(a, b)
    ensures Segments(a) == Segments(b) && Fresh(a, |a|) == Fresh(b, |b|)
  {
    if a == [] {
      assert b == [];
    } else {
      var n := |a| - 1;
      var p, q, e, f := a[..n], b[..n], a[n], b[n];
      assert a == p + [e] && b == q + [f];
      UnsplitPrefix(p, e);
      UnsplitPrefix(q, f);
      SegmentsOfReadings(p, q);
      SegmentsInStep(p, e, q, f);
      FreshInStep(p, e, q, f);
    }
  }

  function Unbound(id: DeviceId, rs: seq<Reading>): (a: Log)
    ensures |a| == |rs|
    ensures forall i :: 0 <= i < |rs| ==> a[i] == Entry(id, "", rs[i])
  {
    seq(|rs|, i requires 0 <= i < |rs| => Entry(id, "", rs[i]))
  }

  lemma {:induction false} ReplayIsRun(t: Tables, id: DeviceId, rs: seq<Reading>)
    ensures Replay(t, id, rs) == Run(t, Unbound(id, rs))
  {
    if rs != [] {
      var n := |rs| - 1;
      ReplayIsRun(t, id, rs[..n]);
      assert Unbound(id, rs)[..n] == Unbound(id, rs[..n]);
    }
  }

  lemma {:induction false} AcceptsAll(a: Log, id: DeviceId)
    requires Increasing(a, id)
    ensures Accepted(a, id) == a
  {
    if a != [] {
      var n := |a| - 1;
      AcceptsAll(a[..n], id);
      assert a == a[..n] + [a[n]];
    }
  }

  lemma {:induction false} UnboundUnsplit(a: Log, i: nat)
    requires i <= |a| && forall k :: 0 <= k < |a| ==> a[k].binding == ""
    ensures Bound(a, i) == ""
  {
    if i > 0 { UnboundUnsplit(a, i - 1); }
  }

  function StoreAll(t: Tables, id: DeviceId, rs: seq<Reading>): Tables {
    if rs == [] then t else StoreRaw(StoreAll(t, id, rs[..|rs| - 1]), id, rs[|rs| - 1])
  }

  lemma SinceAppend(rows: seq<Reading>, r: Reading, cutoff: Time)
    ensures Since(rows + [r], cutoff) == Since(rows, cutoff) + (if r.at >= cutoff then [r] else [])
  {
    assert (rows + [r])[..|rows|] == rows;
  }

  /** The later of two cutoffs decides. */
  lemma {:induction false} SinceTwice(rows: seq<Reading>, c: Time, d: Time)
    ensures Since(Since(rows, c), d) == Since(rows, if c < d then d else c)
  {
    if rows != [] {
      var n := |rows| - 1;
      SinceTwice(rows[..n], c, d);
      SinceAppend(Since(rows[..n], c), rows[n], d);
      if rows[n].at < c { assert Since(rows[..n], c) + [] == Since(rows[..n], c); }
    }
  }

  /** The readings no more than a day older than the last one. */
  function Recent(rs: seq<Reading>): seq<Reading> {
    if rs == [] then [] else Since(rs, rs[|rs| - 1].at - DAY)
  }

  lemma RecentEnds(rs: seq<Reading>)
    requires rs != []
    ensures Recent(rs) != [] && Recent(rs)[|Recent(rs)| - 1] == rs[|rs| - 1]
  {
    var n := |rs| - 1;
    assert Recent(rs) == Since(rs[..n], rs[n].at - DAY) + [rs[n]];
  }

  lemma RecentPush(rs: seq<Reading>, r: Reading)
    ensures Recent(rs + [r]) == Since(rs, r.at - DAY) + [r]
  {
    SinceAppend(rs, r, r.at - DAY);
    assert (rs + [r])[|rs + [r]| - 1] == r;
  }

  lemma RecentMore(rs: seq<Reading>, r: Reading)
    requires rs != [] && r.at > rs[|rs| - 1].at
    ensures Since(Recent(rs) + [r], r.at - DAY) == Recent(rs + [r])
  {
    var c, d := rs[|rs| - 1].at - DAY, r.at - DAY;
    var q := Since(rs, c);
    assert Recent(rs) == q;
    SinceAppend(q, r, d);
    SinceTwice(rs, c, d);
    RecentPush(rs, r);
  }

  lemma StoreLast(rs: seq<Reading>, r: Reading)
    requires Sorted(rs + [r])
    ensures Since(InsertOrReplace(Recent(rs), r), r.at - DAY) == Recent(rs + [r])
  {
    if rs == [] {
      assert rs + [r] == [r];
    } else {
      assert rs[|rs| - 1] == (rs + [r])[|rs| - 1] && r == (rs + [r])[|rs|];
      RecentEnds(rs);
      RecentMore(rs, r);
    }
  }

  lemma StoreRawRows(t: Tables, id: DeviceId, r: Reading)
    ensures var u := StoreRaw(t, id, r);
            && Rows(u.samples, id) == Since(InsertOrReplace(Rows(t.samples, id), r), r.at - DAY)
            && u.events == t.events && u.checkpoints == t.checkpoints
  {
  }

  /** Raw samples stored in order: those of the last day are left, and there are no events. */
  lemma {:induction false} StoredAreRecent(id: DeviceId, rs: seq<Reading>)
    requires Sorted(rs)
    ensures var t := StoreAll(EMPTY, id, rs);
            t.events == [] && t.checkpoints == map[] && Rows(t.samples, id) == Recent(rs)
  {
    if rs != [] {
      var q, r := rs[..|rs| - 1], rs[|rs| - 1];
      assert rs == q + [r];
      StoredAreRecent(id, q);
      StoreRawRows(StoreAll(EMPTY, id, q), id, r);
      StoreLast(q, r);
    }
  }

  ghost predicate AfterZero(rs: seq<Reading>) {
    forall i :: 0 <= i < |rs| ==> rs[i].at > ZERO_TIME
  }

  /** Replaying samples from tables without events gives their segmentation. */
  lemma ReplayIsSegmentation(t: Tables, id: DeviceId, rs: seq<Reading>)
    requires t.events == [] && t.checkpoints == map[] && Sorted(rs) && AfterZero(rs)
    ensures Own(Replay(t, id, rs).events, id) == Segments(Unbound(id, rs))
  {
    var b := Unbound(id, rs);
    ReplayIsRun(t, id, rs);
    assert Increasing(b, id);
    AcceptsAll(b, id);
    RunTracks(t, b, id);
  }

  lemma ReadingsSorted(a: Log, id: DeviceId)
    requires Increasing(a, id)
    ensures Sorted(Readings(a)) && AfterZero(Readings(a))
  {
  }

  lemma SinceSorted(rs: seq<Reading>, cutoff: Time)
    requires Sorted(rs) && AfterZero(rs)
    ensures Sorted(Since(rs, cutoff)) && AfterZero(Since(rs, cutoff))
  {
    var k := SinceIsSuffix(rs, cutoff);
  }

  lemma BackfillOfRaw(id: DeviceId, rs: seq<Reading>, since: Time)
    requires Sorted(rs) && AfterZero(rs)
    ensures var raw := StoreAll(EMPTY, id, rs);
            Own(Replay(raw, id, Since(Rows(raw.samples, id), since)).events, id)
              == Segments(Unbound(id, Since(Recent(rs), since)))
  {
    StoredAreRecent(id, rs);
    if rs != [] { SinceSorted(rs, rs[|rs| - 1].at - DAY); }
    SinceSorted(Recent(rs), since);
    ReplayIsSegmentation(StoreAll(EMPTY, id, rs), id, Since(Recent(rs), since));
  }

  /**
   Raw samples of any history, backfilled into fresh tables, give the segmentation of those that are
   left: the readings within a day of the last one, from `since` on.
   */
  lemma BackfillIsSegmentation(h: Log, id: DeviceId, since: Time)
    ensures var rs := Readings(Accepted(h, id));
            var raw := StoreAll(EMPTY, id, rs);
            Own(Replay(raw, id, Since(Rows(raw.samples, id), since)).events, id)
              == Segments(Unbound(id, Since(Recent(rs), since)))
  {
    AcceptedIncreases(h, id);
    ReadingsSorted(Accepted(h, id), id);
    BackfillOfRaw(id, Readings(Accepted(h, id)), since);
  }

  lemma AllAreRecent(rs: seq<Reading>, since: Time)
    requires Sorted(rs) && (rs != [] ==> rs[0].at >= since && rs[0].at >= rs[|rs| - 1].at - DAY)
    ensures Since(Recent(rs), since) == rs
  {
    if rs != [] {
      SinceFirst(rs, rs[|rs| - 1].at - DAY);
      SinceFirst(rs, since);
    }
  }

  lemma SinceFirst(rs: seq<Reading>, cutoff: Time)
    requires Sorted(rs) && rs != [] && rs[0].at >= cutoff
    ensures Since(rs, cutoff) == rs
  {
    var k := SinceIsSuffix(rs, cutoff);
    assert k == 0 && rs[0..] == rs;
  }

  lemma UnboundSegments(a: Log, id: DeviceId)
    requires Increasing(a, id) && Unsplit(a)
    ensures Segments(Unbound(id, Readings(a))) == Segments(a)
  {
    var b := Unbound(id, Readings(a));
    forall i | 0 <= i < |b| ensures !Splits(b, i) { UnboundUnsplit(b, i); }
    SegmentsOfReadings(a, b);
  }

  /** So for readings within one day that bring no change of binding it gives the rows that live recording gave. */
  lemma BackfillReproducesLive(h: Log, id: DeviceId, since: Time)
    requires var a := Accepted(h, id);
             Unsplit(a) && (a != [] ==> a[0].reading.at >= since && a[0].reading.at >= LastAt(a) - DAY)
    ensures var raw := StoreAll(EMPTY, id, Readings(Accepted(h, id)));
            Own(Replay(raw, id, Since(Rows(raw.samples, id), since)).events, id) == Own(Run(EMPTY, h).events, id)
  {
    var a := Accepted(h, id);
    AcceptedIncreases(h, id);
    ReadingsSorted(a, id);
    AllAreRecent(Readings(a), since);
    BackfillIsSegmentation(h, id, since);
    UnboundSegments(a, id);
    EventsAreSegments(h, id);
  }
}
