/**
 Main result on recovery: the checkpoint row of a device can be lost. After adoption and replay every
 continuation gives the same event table as without the loss, exactly when the first binding that
 arrives does not split an open event.
 */
module ActivityCheckpointLoss {
  import opened Wrappers
  import opened ActivityTables
  import opened ActivityRecorder
  import opened ActivitySegments
  import opened ActivityHistory
  import opened ActivityRecovery
  import opened ActivityAdoption

  /** The tables after one call. */
  function After(t: Tables, e: Entry): Tables {
    Record(t, e.device, e.binding, e.reading).tables
  }

  // ---- what shows the loss ----

  /** The first entry from n on that carries a binding; |b| if there is none. */
  function FirstBound(b: Log, n: nat): (j: nat)
    requires n <= |b|
    ensures n <= j <= |b|
    ensures forall i :: n <= i < j ==> b[i].binding == ""
    ensures j < |b| ==> b[j].binding != ""
    decreases |b| - n
  {
    if n == |b| || b[n].binding != "" then n else FirstBound(b, n + 1)
  }

  /** The first binding that the device accepts from entry n on splits an open event. */
  ghost predicate Reveals(b: Log, n: nat) {
    n <= |b| && FirstBound(b, n) < |b| && Splits(b, FirstBound(b, n)) && Fresh(b, FirstBound(b, n))
  }

  lemma {:induction false} FirstBoundStep(b: Log, e: Entry, n: nat)
    requires n <= |b|
    ensures FirstBound(b + [e], n) ==
      if FirstBound(b, n) < |b| then FirstBound(b, n) else if e.binding != "" then |b| else |b| + 1
    decreases |b| - n
  {
    if n < |b| && b[n].binding == "" { FirstBoundStep(b, e, n + 1); }
  }

  lemma RevealsStep(b: Log, e: Entry, n: nat)
    requires n <= |b|
    ensures Reveals(b + [e], n) <==>
      Reveals(b, n) || (FirstBound(b, n) == |b| && Splits(b + [e], |b|) && Fresh(b, |b|))
  {
    var j := FirstBound(b, n);
    FirstBoundStep(b, e, n);
    FreshPrefix(b, e, j);
    if j < |b| { SplitsPrefix(b, e, j); }
  }

  // ---- readings of other devices ----

  /** A reading of another device leaves adoption alone: there is a checkpoint, or the last two samples survive. */
  ghost predicate Spares(t: Tables, e: Entry, id: DeviceId) {
    var rows := Rows(t.samples, id);
    || e.device == id || id in t.checkpoints || e.reading.at <= Load(t, e.device).last
    || forall i :: 0 <= i < |rows| && i >= |rows| - 2 ==> rows[i].at >= e.reading.at - DAY
  }

  lemma ExtendsPrefix(before: seq<Event>, after: seq<Event>, id: DeviceId)
    requires Extends(before, after, id) && after != []
    ensures var n := |after| - 1;
            if |before| == |after| then Extends(before[..n], after[..n], id) else Extends(before, after[..n], id)
  {
  }

  lemma {:induction false} LatestOther(before: seq<Event>, after: seq<Event>, id: DeviceId, other: DeviceId)
    requires Extends(before, after, id) && other != id
    ensures LatestRow(after, other) == LatestRow(before, other)
    decreases |after|
  {
    if after != [] {
      var n := |after| - 1;
      ExtendsPrefix(before, after, id);
      if |before| == |after| {
        LatestOther(before[..n], after[..n], id, other);
        LatestOfSame(before, after, other);
      } else {
        LatestOther(before, after[..n], id, other);
        assert after[n].device == id;
      }
    }
  }

  lemma LatestOfSame(before: seq<Event>, after: seq<Event>, id: DeviceId)
    requires |before| == |after| > 0
    requires forall k :: 0 <= k < |before| ==> after[k].device == before[k].device && after[k].start == before[k].start
    requires LatestRow(after[..|after| - 1], id) == LatestRow(before[..|before| - 1], id)
    ensures LatestRow(after, id) == LatestRow(before, id)
  {
    var n, k := |before| - 1, LatestRow(before[..|before| - 1], id);
    assert after[n].device == before[n].device && after[n].start == before[n].start;
    if k > 0 { assert after[k - 1].start == before[k - 1].start; }
  }

  lemma SinceKeepsLast(rows: seq<Reading>, cutoff: Time)
    requires forall i :: 0 <= i < |rows| && i >= |rows| - 2 ==> rows[i].at >= cutoff
    ensures var kept := Since(rows, cutoff);
            && TrailingLow(kept) == TrailingLow(rows)
            && (rows == [] <==> kept == [])
            && (rows != [] ==> kept[|kept| - 1] == rows[|rows| - 1])
  {
    var n := |rows|;
    if n >= 1 {
      assert Since(rows, cutoff) == Since(rows[..n - 1], cutoff) + [rows[n - 1]];
    }
    if n >= 2 {
      assert rows[..n - 1][..n - 2] == rows[..n - 2] && rows[..n - 1][n - 2] == rows[n - 2];
      assert Since(rows[..n - 1], cutoff) == Since(rows[..n - 2], cutoff) + [rows[n - 2]];
    }
  }

  /** Adoption looks at the device's latest row and its last two samples only. */
  lemma AdoptKept(t: Tables, t': Tables, id: DeviceId, rows: seq<Reading>, rows': seq<Reading>)
    requires var row := LatestRow(t.events, id);
             LatestRow(t'.events, id) == row && (row > 0 ==> t'.events[row - 1] == t.events[row - 1])
    requires rows == Rows(t.samples, id) && rows' == Rows(t'.samples, id)
    requires TrailingLow(rows') == TrailingLow(rows) && (rows == [] <==> rows' == [])
    requires rows != [] ==> rows'[|rows'| - 1] == rows[|rows| - 1]
    ensures Adopt(t', id) == Adopt(t, id)
  {
  }

  /** The loaded state of a device survives another device's reading that spares it. */
  lemma LoadKept(t: Tables, e: Entry, id: DeviceId)
    requires e.device != id && Spares(t, e, id) && e.reading.at > Load(t, e.device).last
    requires Extends(t.events, Transition(t, e.device, e.binding, e.reading).events, e.device)
    ensures Load(After(t, e), id) == Load(t, id)
  {
    var t', rows := After(t, e), Rows(t.samples, id);
    assert t'.events == Transition(t, e.device, e.binding, e.reading).events;
    assert id in t'.checkpoints <==> id in t.checkpoints;
    if id !in t.checkpoints {
      LatestOther(t.events, t'.events, e.device, id);
      RecordSamples(t, e, id);
      SinceKeepsLast(rows, e.reading.at - DAY);
      AdoptKept(t, t', id, rows, Since(rows, e.reading.at - DAY));
    }
  }

  // ---- the two runs side by side ----

  ghost predicate SimilarDrafts(d: Draft, f: Draft) {
    d.events == f.events && Similar(d.s, f.s)
  }

  /** The entry brings a binding that only the complete state takes for a change. */
  predicate Clashes(s: Checkpoint, r: Checkpoint, e: Entry) {
    r.eventId != 0 && e.binding != "" && r.binding != "" && s.binding == "" && e.binding != r.binding
  }

  function Rebound(known: string, e: Entry): string {
    if e.binding != "" then e.binding else known
  }

  lemma TransitionSimilar(d: Draft, f: Draft, e: Entry)
    requires SimilarDrafts(d, f) && !Clashes(d.s, f.s, e)
    ensures var d', f' := Classify(Rebind(Retire(d), e.binding), e.device, e.reading),
                          Classify(Rebind(Retire(f), e.binding), e.device, e.reading);
            SimilarDrafts(d', f') && d'.s.binding == Rebound(d.s.binding, e) && f'.s.binding == Rebound(f.s.binding, e)
  {
    assert SimilarDrafts(Retire(d), Retire(f));
    assert SimilarDrafts(Rebind(Retire(d), e.binding), Rebind(Retire(f), e.binding));
  }

  lemma CommitAlike(t: Tables, u: Tables, id: DeviceId, d: Draft, f: Draft, r: Reading)
    requires t.checkpoints - {id} == u.checkpoints - {id} && SimilarDrafts(d, f)
    ensures Alike(Commit(t, id, d, r), Commit(u, id, f, r), id)
  {
    assert t.checkpoints[id := d.s.(last := r.at)] - {id} == t.checkpoints - {id};
    assert u.checkpoints[id := f.s.(last := r.at)] - {id} == u.checkpoints - {id};
  }

  lemma AlikeOwn(t: Tables, u: Tables, id: DeviceId, e: Entry)
    requires Alike(t, u, id) && e.device == id && !Clashes(Load(t, id), Load(u, id), e)
    requires e.reading.at > Load(u, id).last
    ensures var t', u' := Record(t, id, e.binding, e.reading).tables, Record(u, id, e.binding, e.reading).tables;
            && Alike(t', u', id)
            && Load(t', id).binding == Rebound(Load(t, id).binding, e)
            && Load(u', id).binding == Rebound(Load(u, id).binding, e)
  {
    TransitionSimilar(Draft(t.events, Load(t, id)), Draft(u.events, Load(u, id)), e);
    CommitAlike(t, u, id, Transition(t, id, e.binding, e.reading), Transition(u, id, e.binding, e.reading), e.reading);
  }

  /** The other device is found in the same state by both. */
  lemma SameOther(t: Tables, u: Tables, id: DeviceId, d: DeviceId)
    requires Alike(t, u, id) && d != id && (d in u.checkpoints || LatestRow(u.events, d) == 0)
    ensures Load(t, d) == Load(u, d)
  {
    assert d in t.checkpoints <==> d in t.checkpoints - {id};
    assert d in u.checkpoints <==> d in u.checkpoints - {id};
    assert d in t.checkpoints ==> t.checkpoints[d] == (t.checkpoints - {id})[d];
    assert d in u.checkpoints ==> u.checkpoints[d] == (u.checkpoints - {id})[d];
  }

  lemma AlikeOther(t: Tables, u: Tables, id: DeviceId, e: Entry)
    requires Alike(t, u, id) && e.device != id && id in u.checkpoints && Load(t, e.device) == Load(u, e.device)
    requires Spares(t, e, id) && e.reading.at > Load(u, e.device).last
    requires Extends(u.events, Transition(u, e.device, e.binding, e.reading).events, e.device)
    ensures var t', u' := After(t, e), After(u, e);
            Alike(t', u', id) && Load(t', id) == Load(t, id) && Load(u', id) == Load(u, id)
  {
    var d := e.device;
    var c := Transition(t, d, e.binding, e.reading).s.(last := e.reading.at);
    LoadKept(t, e, id);
    UpdateOther(t.checkpoints, u.checkpoints, id, d, c);
  }

  lemma UpdateOther(m: map<DeviceId, Checkpoint>, m': map<DeviceId, Checkpoint>, id: DeviceId, d: DeviceId, c: Checkpoint)
    requires m - {id} == m' - {id} && d != id
    ensures m[d := c] - {id} == m'[d := c] - {id}
  {
    assert m[d := c] - {id} == (m - {id})[d := c];
    assert m'[d := c] - {id} == (m' - {id})[d := c];
  }

  /**
   t is what the undisturbed tables after h would be, but that the binding of the device is unknown
   until its entries from n on have brought one.
   */
  ghost predicate Follows(t: Tables, h: Log, id: DeviceId, n: nat) {
    var u, b := Run(EMPTY, h), Accepted(h, id);
    && id in u.checkpoints && n <= |b| && Alike(t, u, id)
    && Load(t, id).binding == if FirstBound(b, n) < |b| then Load(u, id).binding else ""
  }

  lemma RunStep(t: Tables, p: Log, e: Entry)
    ensures Run(t, p + [e]) == After(Run(t, p), e)
  {
    assert (p + [e])[..|p|] == p;
  }

  lemma FollowsOwn(t: Tables, h: Log, id: DeviceId, n: nat, e: Entry)
    requires Follows(t, h, id, n) && e.device == id && !Reveals(Accepted(h + [e], id), n)
    ensures Follows(After(t, e), h + [e], id, n)
  {
    var u, b := Run(EMPTY, h), Accepted(h, id);
    RunTracks(EMPTY, h, id);
    RunStep(EMPTY, h, e);
    AcceptedStep(h, e, id);
    if e.reading.at > LastAt(b) {
      RevealsStep(b, e, n);
      FirstBoundStep(b, e, n);
      BoundPrefix(b, e, |b|);
      AlikeOwn(t, u, id, e);
    }
  }

  /** One call by another device extends the table by rows of its own. */
  lemma OtherExtends(h: Log, e: Entry)
    requires e.reading.at > Load(Run(EMPTY, h), e.device).last
    ensures Extends(Run(EMPTY, h).events, Transition(Run(EMPTY, h), e.device, e.binding, e.reading).events, e.device)
  {
    var u, a := Run(EMPTY, h), Accepted(h, e.device);
    RunTracks(EMPTY, h, e.device);
    LoadMatches(u, a, e.device);
    TransitionTracks(u, a, e);
  }

  lemma FollowsOther(t: Tables, h: Log, id: DeviceId, n: nat, e: Entry)
    requires Follows(t, h, id, n) && e.device != id && Spares(t, e, id)
    ensures Follows(After(t, e), h + [e], id, n)
  {
    var u := Run(EMPTY, h);
    RunTracks(EMPTY, h, e.device);
    RunStep(EMPTY, h, e);
    AcceptedStep(h, e, id);
    if e.device !in u.checkpoints { NoRowNoLatest(u.events, e.device); }
    SameOther(t, u, id, e.device);
    if e.reading.at > Load(u, e.device).last {
      OtherExtends(h, e);
      AlikeOther(t, u, id, e);
    }
  }

  /** Every reading of another device, at its moment, spares this one. */
  ghost predicate OthersSpare(t: Tables, k: Log, id: DeviceId) {
    k != [] ==> OthersSpare(t, k[..|k| - 1], id) && Spares(Run(t, k[..|k| - 1]), k[|k| - 1], id)
  }

  lemma FollowsStep(t: Tables, h: Log, id: DeviceId, n: nat, e: Entry)
    requires Follows(t, h, id, n) && Spares(t, e, id) && !Reveals(Accepted(h + [e], id), n)
    ensures Follows(After(t, e), h + [e], id, n)
  {
    if e.device == id { FollowsOwn(t, h, id, n, e); } else { FollowsOther(t, h, id, n, e); }
  }

  function Fold<S, E>(step: (S, E) -> S, start: S, es: seq<E>): S {
    if es == [] then start else step(Fold(step, start, es[..|es| - 1]), es[|es| - 1])
  }

  lemma {:induction false} FoldConcat<S, E>(step: (S, E) -> S, start: S, a: seq<E>, b: seq<E>)
    ensures Fold(step, Fold(step, start, a), b) == Fold(step, start, a + b)
    decreases |b|
  {
    if b == [] {
      assert a + b == a;
    } else {
      FoldConcat(step, start, a, b[..|b| - 1]);
      assert (a + b)[..|a + b| - 1] == a + b[..|b| - 1];
    }
  }

  lemma {:induction false} RunIsFold(t: Tables, h: Log)
    ensures Run(t, h) == Fold(After, t, h)
  {
    if h != [] { RunIsFold(t, h[..|h| - 1]); }
  }

  lemma RunConcat(t: Tables, h: Log, k: Log)
    ensures Run(Run(t, h), k) == Run(t, h + k)
  {
    RunIsFold(t, h);
    RunIsFold(Run(t, h), k);
    RunIsFold(t, h + k);
    FoldConcat(After, t, h, k);
  }

  // ---- once shown, the loss shows for ever ----

  /** A checkpoint with an open event names a row of its own device. */
  ghost predicate Owned(t: Tables) {
    forall d :: d in t.checkpoints ==> Names(t.events, t.checkpoints[d], d)
  }

  ghost predicate Names(events: seq<Event>, s: Checkpoint, id: DeviceId) {
    s.eventId != 0 ==> s.eventId <= |events| && events[s.eventId - 1].device == id
  }

  /** An end once set is kept, and one set now is no earlier than `last`. */
  ghost predicate EndsKept(before: seq<Event>, after: seq<Event>, last: Time) {
    && |before| <= |after|
    && forall k :: 0 <= k < |before| ==>
                     && (before[k].end.Some? ==> after[k].end == before[k].end)
                     && (before[k].end.None? && after[k].end.Some? ==> after[k].end.value >= last)
  }

  ghost predicate Evolves(before: seq<Event>, d: Draft, id: DeviceId, last: Time) {
    Extends(before, d.events, id) && EndsKept(before, d.events, last) && Names(d.events, d.s, id)
  }

  lemma CloseEvolves(before: seq<Event>, d: Draft, id: DeviceId, last: Time, end: Time)
    requires Evolves(before, d, id, last) && end >= last
    ensures Evolves(before, CloseOpen(d, end), id, last)
  {
  }

  lemma RebindEvolves(before: seq<Event>, d: Draft, id: DeviceId, binding: string)
    requires Evolves(before, d, id, d.s.last)
    ensures var d' := Rebind(Retire(d), binding); Evolves(before, d', id, d.s.last) && d'.s.last == d.s.last
  {
    CloseEvolves(before, d, id, d.s.last, d.s.last);
    CloseEvolves(before, Retire(d), id, d.s.last, d.s.last);
  }

  lemma BumpEvolves(before: seq<Event>, d: Draft, id: DeviceId, last: Time, r: Reading)
    requires Evolves(before, d, id, last)
    ensures Evolves(before, Draft(BumpRow(d.events, d.s.eventId, r), d.s), id, last)
  {
  }

  lemma ClassifyEvolves(before: seq<Event>, d: Draft, id: DeviceId, last: Time, r: Reading)
    requires Evolves(before, d, id, last) && r.at >= last
    ensures Evolves(before, Classify(d, id, r), id, last)
  {
    if Running(r) {
      BumpEvolves(before, d, id, last, r);
    } else {
      CloseEvolves(before, d.(s := d.s.(low := d.s.low + 1)), id, last, r.at);
    }
  }

  lemma TransitionEvolves(t: Tables, id: DeviceId, binding: string, r: Reading)
    requires Names(t.events, Load(t, id), id) && r.at > Load(t, id).last
    ensures Evolves(t.events, Transition(t, id, binding, r), id, Load(t, id).last)
  {
    var d := Draft(t.events, Load(t, id));
    RebindEvolves(t.events, d, id, binding);
    ClassifyEvolves(t.events, Rebind(Retire(d), binding), id, Load(t, id).last, r);
  }

  lemma RecordEvolves(t: Tables, id: DeviceId, binding: string, r: Reading)
    requires Owned(t)
    ensures var t' := Record(t, id, binding, r).tables;
            Owned(t') && Extends(t.events, t'.events, id) && EndsKept(t.events, t'.events, Load(t, id).last)
  {
    if r.at > Load(t, id).last {
      var d, t' := Transition(t, id, binding, r), Record(t, id, binding, r).tables;
      TransitionEvolves(t, id, binding, r);
      assert t'.events == d.events && t'.checkpoints == t.checkpoints[id := d.s.(last := r.at)];
      forall c | c in t'.checkpoints ensures Names(t'.events, t'.checkpoints[c], c) {
        assert c != id ==> Names(t.events, t.checkpoints[c], c);
      }
    }
  }

  /** The row was closed at `end` in v, and in u it is open or was closed later. */
  ghost predicate Parted(u: Tables, v: Tables, id: DeviceId, row: nat, end: Time) {
    && Owned(u) && Owned(v) && row < |u.events| && row < |v.events|
    && v.events[row].end == Some(end)
    && u.events[row].device == id && (u.events[row].end.Some? ==> u.events[row].end.value > end)
    && id in u.checkpoints && u.checkpoints[id].last > end
  }

  lemma PartedStep(u: Tables, v: Tables, id: DeviceId, row: nat, end: Time, e: Entry)
    requires Parted(u, v, id, row, end)
    ensures Parted(After(u, e), After(v, e),
                   id, row, end)
  {
    RecordEvolves(u, e.device, e.binding, e.reading);
    RecordEvolves(v, e.device, e.binding, e.reading);
  }

  lemma SplitParts(t: Tables, u: Tables, id: DeviceId, e: Entry)
    requires Owned(t) && Owned(u) && Alike(t, u, id) && e.device == id && e.reading.at > Load(u, id).last
    requires Clashes(Load(t, id), Load(u, id), e) && Load(u, id).low <= 1 && Names(u.events, Load(u, id), id)
    requires u.events[Load(u, id).eventId - 1].end.None?
    ensures Parted(Record(t, id, e.binding, e.reading).tables, Record(u, id, e.binding, e.reading).tables,
                   id, Load(u, id).eventId - 1, Load(u, id).last)
  {
    RecordEvolves(t, id, e.binding, e.reading);
    RecordEvolves(u, id, e.binding, e.reading);
  }

  lemma {:induction false} RunOwned(t: Tables, h: Log)
    requires Owned(t)
    ensures Owned(Run(t, h))
  {
    if h != [] {
      var e := h[|h| - 1];
      RunOwned(t, h[..|h| - 1]);
      RecordEvolves(Run(t, h[..|h| - 1]), e.device, e.binding, e.reading);
    }
  }

  /** The live state of a device with an open event. */
  ghost predicate OpenState(u: Tables, b: Log, id: DeviceId, r: Checkpoint) {
    && r.eventId != 0 && r.last == LastAt(b) && r.binding == Bound(b, |b|) && r.low <= 1
    && Names(u.events, r, id) && u.events[r.eventId - 1].end.None?
  }

  lemma FreshIsOpen(u: Tables, b: Log, id: DeviceId)
    requires Tracks(u, b, id) && Increasing(b, id) && Fresh(b, |b|)
    ensures OpenState(u, b, id, Load(u, id))
  {
    OpenRowIsLatest(u, b, id);
    assert Matches(u.events, b, id, u.checkpoints[id]);
  }

  /** The entry that reveals the loss clashes with the live state. */
  lemma RevealingClashes(s: Checkpoint, r: Checkpoint, u: Tables, b: Log, id: DeviceId, n: nat, e: Entry)
    requires n <= |b| && !Reveals(b, n) && Reveals(b + [e], n) && Tracks(u, b, id) && Increasing(b, id)
    requires r == Load(u, id) && (FirstBound(b, n) == |b| ==> s.binding == "")
    ensures Clashes(s, r, e) && OpenState(u, b, id, r)
  {
    RevealsStep(b, e, n);
    BoundPrefix(b, e, |b|);
    FreshIsOpen(u, b, id);
  }

  /** It parts the tables. */
  lemma RevealingParts(t: Tables, h: Log, id: DeviceId, n: nat, e: Entry) returns (row: nat, end: Time)
    requires Follows(t, h, id, n) && Owned(t)
    requires !Reveals(Accepted(h, id), n) && Reveals(Accepted(h + [e], id), n)
    ensures Parted(After(t, e), Run(EMPTY, h + [e]), id, row, end)
  {
    var u, b := Run(EMPTY, h), Accepted(h, id);
    AcceptedStep(h, e, id);
    RunTracks(EMPTY, h, id);
    AcceptedIncreases(h, id);
    RevealingClashes(Load(t, id), Load(u, id), u, b, id, n, e);
    row, end := Load(u, id).eventId - 1, Load(u, id).last;
    RunOwned(EMPTY, h);
    RunStep(EMPTY, h, e);
    SplitParts(t, u, id, e);
  }

  // ---- every continuation ----

  /** Until the loss shows the tables follow the undisturbed ones, and from then on they are parted. */
  ghost predicate Compared(t: Tables, h: Log, id: DeviceId, n: nat) {
    && Owned(t) && n <= |Accepted(h, id)|
    && if Reveals(Accepted(h, id), n) then exists row, end :: Parted(t, Run(EMPTY, h), id, row, end)
       else Follows(t, h, id, n)
  }

  lemma AcceptedGrows(h: Log, e: Entry, id: DeviceId)
    ensures |Accepted(h, id)| <= |Accepted(h + [e], id)|
  {
    AcceptedStep(h, e, id);
  }

  /** What has been revealed stays so. */
  lemma RevealedBefore(h: Log, e: Entry, id: DeviceId, n: nat)
    requires Reveals(Accepted(h, id), n)
    ensures Reveals(Accepted(h + [e], id), n)
  {
    AcceptedStep(h, e, id);
    RevealsStep(Accepted(h, id), e, n);
  }

  lemma PartedMore(t: Tables, h: Log, id: DeviceId, e: Entry)
    requires exists row, end :: Parted(t, Run(EMPTY, h), id, row, end)
    ensures exists row, end :: Parted(After(t, e), Run(EMPTY, h + [e]), id, row, end)
  {
    var row, end :| Parted(t, Run(EMPTY, h), id, row, end);
    RunStep(EMPTY, h, e);
    PartedStep(t, Run(EMPTY, h), id, row, end, e);
  }

  lemma ComparedStep(t: Tables, h: Log, id: DeviceId, n: nat, e: Entry)
    requires Compared(t, h, id, n) && Spares(t, e, id)
    ensures Compared(After(t, e), h + [e], id, n)
  {
    RecordEvolves(t, e.device, e.binding, e.reading);
    AcceptedGrows(h, e, id);
    if Reveals(Accepted(h, id), n) {
      RevealedBefore(h, e, id, n);
      PartedMore(t, h, id, e);
    } else if Reveals(Accepted(h + [e], id), n) {
      var row, end := RevealingParts(t, h, id, n, e);
    } else {
      FollowsStep(t, h, id, n, e);
    }
  }

  lemma {:induction false} ComparedRuns(t: Tables, h: Log, id: DeviceId, n: nat, k: Log)
    requires Compared(t, h, id, n) && OthersSpare(t, k, id)
    ensures Compared(Run(t, k), h + k, id, n)
    decreases |k|
  {
    if k == [] {
      assert h + k == h;
    } else {
      var p, e := k[..|k| - 1], k[|k| - 1];
      assert (h + p) + [e] == h + k;
      ComparedRuns(t, h, id, n, p);
      ComparedStep(Run(t, p), h + p, id, n, e);
    }
  }

  // ---- main results ----

  lemma {:induction false} BoundOfNone(a: Log, i: nat)
    requires i <= |a| && forall k :: 0 <= k < i ==> a[k].binding == ""
    ensures Bound(a, i) == ""
  {
    if i > 0 { BoundOfNone(a, i - 1); }
  }

  lemma RecoveredIsOwned(h: Log, id: DeviceId, since: Time)
    ensures Owned(Recovered(Run(EMPTY, h), id, since))
  {
    var t := Run(EMPTY, h);
    RunOwned(EMPTY, h);
    assert Owned(Lose(t, id));
    ReplayIsRun(Lose(t, id), id, Since(Rows(t.samples, id), since));
    RunOwned(Lose(t, id), Unbound(id, Since(Rows(t.samples, id), since)));
  }

  /** A device that never recorded has no checkpoint to lose. */
  lemma NeverRecorded(h: Log, id: DeviceId, since: Time)
    requires Accepted(h, id) == []
    ensures Recovered(Run(EMPTY, h), id, since) == Run(EMPTY, h)
  {
    RunTracks(EMPTY, h, id);
    SamplesAreSuffix(h, id);
    NothingLost(Run(EMPTY, h), id, since);
  }

  lemma NothingLost(t: Tables, id: DeviceId, since: Time)
    requires id !in t.checkpoints && Rows(t.samples, id) == []
    ensures Recovered(t, id, since) == t
  {
    assert t.checkpoints - {id} == t.checkpoints;
    assert Lose(t, id) == t && Since([], since) == [];
  }

  lemma FirstBindingIsSilent(b: Log)
    ensures !Reveals(b, 0)
  {
    BoundOfNone(b, FirstBound(b, 0));
  }

  /**
   After any history and any continuation, of any devices and bindings, the event tables with and
   without the loss of the checkpoint are the same, exactly when the first binding that the device
   accepts in the continuation does not split an open event.
   */
  lemma LossShowsExactly(h: Log, id: DeviceId, since: Time, k: Log)
    requires Retained(h, id, since) && OthersSpare(Recovered(Run(EMPTY, h), id, since), k, id)
    ensures Run(Recovered(Run(EMPTY, h), id, since), k).events == Run(Run(EMPTY, h), k).events
            <==> !Reveals(Accepted(h + k, id), |Accepted(h, id)|)
  {
    var back := Recovered(Run(EMPTY, h), id, since);
    RunConcat(EMPTY, h, k);
    if Accepted(h, id) == [] {
      NeverRecorded(h, id, since);
      FirstBindingIsSilent(Accepted(h + k, id));
    } else {
      RecoveredCompares(h, id, since);
      ComparedRuns(back, h, id, |Accepted(h, id)|, k);
    }
  }

  lemma RecoveredCompares(h: Log, id: DeviceId, since: Time)
    requires Retained(h, id, since) && Accepted(h, id) != []
    ensures Compared(Recovered(Run(EMPTY, h), id, since), h, id, |Accepted(h, id)|)
  {
    RunTracks(EMPTY, h, id);
    RecoverState(h, id, since);
    RecoveredIsOwned(h, id, since);
  }

  /** Such a case, not at the first reading: a switch named X, a reading without a name, and one named Y. */
  lemma {:induction false} LateBindingShows(id: DeviceId, x: Reading, unnamed: Reading, y: Reading)
    requires Running(x) && Running(unnamed) && Running(y) && ZERO_TIME < x.at < unnamed.at < y.at
    ensures var h, k := [Entry(id, "X", x)], [Entry(id, "", unnamed), Entry(id, "Y", y)];
            Run(Recovered(Run(EMPTY, h), id, x.at), k).events != Run(Run(EMPTY, h), k).events
  {
    var h, k := [Entry(id, "X", x)], [Entry(id, "", unnamed), Entry(id, "Y", y)];
    OneSample(h, id);
    OneMoreAccepted([], h[0], id);
    OneMoreAccepted(h, k[0], id);
    OneMoreAccepted(h + [k[0]], k[1], id);
    assert [] + [h[0]] == h && h + [k[0]] + [k[1]] == h + k;
    LateSplit(h + k);
    LossShowsExactly(h, id, x.at, k);
  }

  lemma OneMoreAccepted(p: Log, e: Entry, id: DeviceId)
    requires Accepted(p, id) == p && e.device == id && e.reading.at > LastAt(p)
    ensures Accepted(p + [e], id) == p + [e]
  {
    AcceptedStep(p, e, id);
  }

  lemma LateSplit(b: Log)
    requires |b| == 3 && b[0].binding == "X" && b[1].binding == "" && b[2].binding == "Y" && On(b, 1)
    ensures Reveals(b, 1)
  {
    assert Bound(b, 1) == "X" && Bound(b, 2) == "X";
    assert FirstBound(b, 2) == 2 && FirstBound(b, 1) == 2;
  }

  lemma {:induction false} OneSample(h: Log, id: DeviceId)
    requires |h| == 1 && h[0].device == id && h[0].reading.at > ZERO_TIME
    ensures Rows(Run(EMPTY, h).samples, id) == [h[0].reading]
  {
    var e := h[0];
    assert h[..0] == [] && h == [] + [e];
    RunStep(EMPTY, [], e);
    RecordSamples(EMPTY, e, id);
    SinceFrom([e.reading], e.reading.at - DAY, 0);
  }

  /** Every entry of the device carries this binding or none. */
  ghost predicate ConstantBinding(h: Log, id: DeviceId, binding: string) {
    forall i :: 0 <= i < |h| && h[i].device == id ==> h[i].binding == "" || h[i].binding == binding
  }

  lemma {:induction false} BoundIsConstant(a: Log, id: DeviceId, binding: string, i: nat)
    requires ConstantBinding(a, id, binding) && i <= |a| && forall k :: 0 <= k < |a| ==> a[k].device == id
    ensures Bound(a, i) == "" || Bound(a, i) == binding
  {
    if i > 0 { BoundIsConstant(a, id, binding, i - 1); }
  }

  lemma {:induction false} AcceptedIsConstant(h: Log, id: DeviceId, binding: string)
    requires ConstantBinding(h, id, binding)
    ensures ConstantBinding(Accepted(h, id), id, binding)
  {
    if h != [] { AcceptedIsConstant(h[..|h| - 1], id, binding); }
  }

  lemma ConstantIsUnsplit(h: Log, id: DeviceId, binding: string)
    requires ConstantBinding(h, id, binding)
    ensures Unsplit(Accepted(h, id))
  {
    var a := Accepted(h, id);
    AcceptedIncreases(h, id);
    AcceptedIsConstant(h, id, binding);
    forall i | 0 <= i < |a| ensures !Splits(a, i) { BoundIsConstant(a, id, binding, i); }
  }

  /** So under a constant binding the loss never shows. */
  lemma LostCheckpointIsInvisible(h: Log, id: DeviceId, binding: string, since: Time, k: Log)
    requires ConstantBinding(h + k, id, binding)
    requires Retained(h, id, since) && OthersSpare(Recovered(Run(EMPTY, h), id, since), k, id)
    ensures Run(Recovered(Run(EMPTY, h), id, since), k).events == Run(Run(EMPTY, h), k).events
  {
    ConstantIsUnsplit(h + k, id, binding);
    LossShowsExactly(h, id, since, k);
  }
}
