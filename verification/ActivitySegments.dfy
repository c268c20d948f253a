/**
 A declarative reading of a device's history: which readings start an event, where each event
 ends, and what it counts. Nothing here mentions checkpoints, debounce counters or row ids.
 */
module ActivitySegments {
  import opened Wrappers
  import opened ActivityTables

  /** One call of the recorder. */
  datatype Entry = Entry(device: DeviceId, binding: string, reading: Reading)

  type Log = seq<Entry>

  function LastAt(a: Log): Time {
    if a == [] then ZERO_TIME else a[|a| - 1].reading.at
  }

  /** The entries of one device that strictly advance its latest timestamp. */
  function Accepted(h: Log, id: DeviceId): Log {
    if h == [] then []
    else
      var a := Accepted(h[..|h| - 1], id);
      var e := h[|h| - 1];
      if e.device == id && e.reading.at > LastAt(a) then a + [e] else a
  }

  predicate On(a: Log, i: nat)
    requires i < |a|
  {
    Running(a[i].reading)
  }

  /** The last non-empty binding among the first i entries. */
  function Bound(a: Log, i: nat): string
    requires i <= |a|
  {
    if i == 0 then ""
    else if a[i - 1].binding != "" then a[i - 1].binding
    else Bound(a, i - 1)
  }

  predicate Splits(a: Log, i: nat)
    requires i < |a|
  {
    a[i].binding != "" && Bound(a, i) != "" && a[i].binding != Bound(a, i)
  }

  /** Among the last two of the first i entries, one is running and no split came after it. */
  predicate Fresh(a: Log, i: nat)
    requires i <= |a|
  {
    || (i >= 1 && On(a, i - 1))
    || (i >= 2 && On(a, i - 2) && !Splits(a, i - 1))
  }

  predicate IsStart(a: Log, i: nat)
    requires i < |a|
  {
    On(a, i) && (Splits(a, i) || !Fresh(a, i))
  }

  /** An event running before entry j stops there: a split, or the second low in a row. */
  predicate Stops(a: Log, j: nat)
    requires 1 <= j < |a|
  {
    Splits(a, j) || (!On(a, j) && !On(a, j - 1))
  }

  /** The first stop at or after j; |a| if there is none. */
  function StopFrom(a: Log, j: nat): (stop: nat)
    requires 1 <= j <= |a|
    ensures j <= stop <= |a|
    ensures forall k :: j <= k < stop ==> !Stops(a, k)
    ensures stop < |a| ==> Stops(a, stop)
    decreases |a| - j
  {
    if j == |a| || Stops(a, j) then j else StopFrom(a, j + 1)
  }

  /** Number of running entries in i..j. */
  function Count(a: Log, i: nat, j: nat): nat
    requires i <= j <= |a|
  {
    if i == j then 0 else Count(a, i, j - 1) + (if On(a, j - 1) then 1 else 0)
  }

  function PeakCurrent(a: Log, i: nat, j: nat): real
    requires i < j <= |a|
  {
    if j == i + 1 then a[i].reading.current
    else if On(a, j - 1) then Max(PeakCurrent(a, i, j - 1), a[j - 1].reading.current)
    else PeakCurrent(a, i, j - 1)
  }

  function PeakPower(a: Log, i: nat, j: nat): real
    requires i < j <= |a|
  {
    if j == i + 1 then a[i].reading.power
    else if On(a, j - 1) then Max(PeakPower(a, i, j - 1), a[j - 1].reading.power)
    else PeakPower(a, i, j - 1)
  }

  function EndTime(a: Log, stop: nat): Option<Time>
    requires 1 <= stop <= |a|
  {
    if stop == |a| then None
    else if Splits(a, stop) then Some(a[stop - 1].reading.at)
    else Some(a[stop].reading.at)
  }

  /** The event that starts at entry i, over the whole history. */
  function EventAt(a: Log, i: nat): Event
    requires i < |a|
  {
    var stop := StopFrom(a, i + 1);
    var start := a[i].reading.at;
    var end := EndTime(a, stop);
    Event(a[i].device, start, end,
          if end.Some? then Some(end.value - start) else None,
          PeakCurrent(a, i, stop), PeakPower(a, i, stop), Count(a, i, stop))
  }

  /** The starting entries among the first n, in order. */
  function Starts(a: Log, n: nat): (s: seq<nat>)
    requires n <= |a|
    ensures forall k :: 0 <= k < |s| ==> s[k] < n && IsStart(a, s[k])
  {
    if n == 0 then []
    else Starts(a, n - 1) + (if IsStart(a, n - 1) then [n - 1] else [])
  }

  /** Every starting entry is listed once, in order. */
  lemma {:induction false} StartsAreComplete(a: Log, n: nat)
    requires n <= |a|
    ensures forall i :: 0 <= i < n && IsStart(a, i) ==> i in Starts(a, n)
    ensures forall k, l :: 0 <= k < l < |Starts(a, n)| ==> Starts(a, n)[k] < Starts(a, n)[l]
  {
    if n > 0 { StartsAreComplete(a, n - 1); }
  }

  function EventsAt(a: Log, starts: seq<nat>): (es: seq<Event>)
    requires forall k :: 0 <= k < |starts| ==> starts[k] < |a|
    ensures |es| == |starts|
    ensures forall k :: 0 <= k < |es| ==> es[k] == EventAt(a, starts[k])
  {
    seq(|starts|, k requires 0 <= k < |starts| => EventAt(a, starts[k]))
  }

  /** The declarative segmentation of a history. */
  function Segments(a: Log): seq<Event> {
    EventsAt(a, Starts(a, |a|))
  }

  // ---- what the counted quantities mean ----

  lemma {:induction false} PeaksAreMaxima(a: Log, i: nat, j: nat)
    requires i < j <= |a| && On(a, i)
    ensures forall k :: i <= k < j && On(a, k) ==> a[k].reading.current <= PeakCurrent(a, i, j)
    ensures forall k :: i <= k < j && On(a, k) ==> a[k].reading.power <= PeakPower(a, i, j)
    ensures exists k :: i <= k < j && On(a, k) && a[k].reading.current == PeakCurrent(a, i, j)
    ensures exists k :: i <= k < j && On(a, k) && a[k].reading.power == PeakPower(a, i, j)
  {
    if j == i + 1 {
      assert On(a, i);
    } else {
      PeaksAreMaxima(a, i, j - 1);
      assert On(a, j - 1) || !On(a, j - 1);
    }
  }

  // ---- appending one entry ----

  /** Everything that looks only at the first n entries is untouched by later ones. */
  lemma {:induction false} BoundPrefix(a: Log, e: Entry, i: nat)
    requires i <= |a|
    ensures Bound(a + [e], i) == Bound(a, i)
  {
    if i > 0 { BoundPrefix(a, e, i - 1); }
  }

  lemma SplitsPrefix(a: Log, e: Entry, i: nat)
    requires i < |a|
    ensures Splits(a + [e], i) == Splits(a, i) && On(a + [e], i) == On(a, i)
  {
    BoundPrefix(a, e, i);
  }

  lemma FreshPrefix(a: Log, e: Entry, i: nat)
    requires i <= |a|
    ensures Fresh(a + [e], i) == Fresh(a, i)
  {
    if i >= 1 { SplitsPrefix(a, e, i - 1); }
    if i >= 2 { SplitsPrefix(a, e, i - 2); }
  }

  lemma {:induction false} StartsPrefix(a: Log, e: Entry, n: nat)
    requires n <= |a|
    ensures Starts(a + [e], n) == Starts(a, n)
  {
    if n > 0 {
      StartsPrefix(a, e, n - 1);
      SplitsPrefix(a, e, n - 1);
      FreshPrefix(a, e, n - 1);
    }
  }

  lemma {:induction false} TalliesPrefix(a: Log, e: Entry, i: nat, j: nat)
    requires i <= j <= |a|
    ensures Count(a + [e], i, j) == Count(a, i, j)
    ensures i < j ==> PeakCurrent(a + [e], i, j) == PeakCurrent(a, i, j)
    ensures i < j ==> PeakPower(a + [e], i, j) == PeakPower(a, i, j)
    decreases j
  {
    if i < j {
      TalliesPrefix(a, e, i, j - 1);
      SplitsPrefix(a, e, j - 1);
    }
  }

  lemma {:induction false} StopPrefix(a: Log, e: Entry, j: nat)
    requires 1 <= j <= |a|
    ensures StopFrom(a, j) < |a| ==> StopFrom(a + [e], j) == StopFrom(a, j)
    ensures StopFrom(a, j) == |a| ==>
              StopFrom(a + [e], j) == (if Stops(a + [e], |a|) then |a| else |a| + 1)
    decreases |a| - j
  {
    if j < |a| {
      SplitsPrefix(a, e, j);
      SplitsPrefix(a, e, j - 1);
      if !Stops(a, j) { StopPrefix(a, e, j + 1); }
    }
  }

  lemma ClosedPrefix(a: Log, e: Entry, i: nat)
    requires i < |a| && StopFrom(a, i + 1) < |a|
    ensures EventAt(a + [e], i) == EventAt(a, i)
  {
    var stop := StopFrom(a, i + 1);
    StopPrefix(a, e, i + 1);
    SplitsPrefix(a, e, stop);
    TalliesPrefix(a, e, i, stop);
  }

  /** The open event of a history after one more entry: closed, extended, or unchanged. */
  function Carry(a: Log, e: Entry, ev: Event): Event
    requires |a| > 0
  {
    if Splits(a + [e], |a|) then Ended(ev, LastAt(a), ev.start)
    else if Running(e.reading) then Bumped(ev, e.reading)
    else if !On(a, |a| - 1) then Ended(ev, e.reading.at, ev.start)
    else ev
  }

  lemma OpenPrefix(a: Log, e: Entry, i: nat)
    requires i < |a| && StopFrom(a, i + 1) == |a|
    ensures EventAt(a + [e], i) == Carry(a, e, EventAt(a, i))
  {
    var b := a + [e];
    var n := |a|;
    StopPrefix(a, e, i + 1);
    TalliesPrefix(a, e, i, n);
    SplitsPrefix(a, e, n - 1);
    if !Stops(b, n) {
      assert StopFrom(b, i + 1) == n + 1;
      assert Count(b, i, n + 1) == Count(b, i, n) + (if On(b, n) then 1 else 0);
    } else {
      assert StopFrom(b, i + 1) == n;
    }
  }

  /** Only the last event can be open, and it is open exactly when the window is fresh. */
  ghost predicate Tail(a: Log, s: seq<nat>)
    requires forall k :: 0 <= k < |s| ==> s[k] < |a|
  {
    && (forall k :: 0 <= k < |s| - 1 ==> StopFrom(a, s[k] + 1) < |a|)
    && (s == [] ==> !Fresh(a, |a|))
    && (s != [] ==> (StopFrom(a, s[|s| - 1] + 1) == |a| <==> Fresh(a, |a|)))
  }

  lemma FreshStep(p: Log, e: Entry)
    ensures var a, n := p + [e], |p|;
            && (IsStart(a, n) ==> Fresh(a, n + 1) && (Fresh(p, n) ==> Stops(a, n)))
            && (!IsStart(a, n) ==> (Fresh(a, n + 1) <==> Fresh(p, n) && !Stops(a, n)))
  {
    var n := |p|;
    FreshPrefix(p, e, n);
    if n >= 1 { SplitsPrefix(p, e, n - 1); }
  }

  lemma {:induction false} OnlyLastOpen(a: Log)
    ensures Tail(a, Starts(a, |a|))
    decreases |a|
  {
    if a != [] {
      var n := |a| - 1;
      var p, e := a[..n], a[n];
      assert a == p + [e];
      OnlyLastOpen(p);
      StartsPrefix(p, e, n);
      TailStep(p, e, Starts(p, n));
    }
  }

  lemma StopStep(p: Log, e: Entry, s: seq<nat>, k: nat)
    requires k < |s| && s[k] < |p|
    ensures StopFrom(p, s[k] + 1) < |p| ==> StopFrom(p + [e], s[k] + 1) < |p| + 1
    ensures StopFrom(p, s[k] + 1) == |p| ==>
              StopFrom(p + [e], s[k] + 1) == if Stops(p + [e], |p|) then |p| else |p| + 1
  {
    StopPrefix(p, e, s[k] + 1);
  }

  /** The last of the events that had started is open after one more entry exactly when it was and does not stop. */
  lemma LastStop(p: Log, e: Entry, s: seq<nat>)
    requires s != [] && forall k :: 0 <= k < |s| ==> s[k] < |p|
    requires Tail(p, s)
    ensures StopFrom(p + [e], s[|s| - 1] + 1) == |p| + 1 <==> Fresh(p, |p|) && !Stops(p + [e], |p|)
  {
    StopStep(p, e, s, |s| - 1);
  }

  lemma TailStart(p: Log, e: Entry, s: seq<nat>)
    requires forall k :: 0 <= k < |s| ==> s[k] < |p|
    requires Tail(p, s) && IsStart(p + [e], |p|)
    ensures Tail(p + [e], s + [|p|])
  {
    var a, n, t := p + [e], |p|, s + [|p|];
    FreshStep(p, e);
    if s != [] { LastStop(p, e, s); }
    forall k | 0 <= k < |t| - 1 ensures StopFrom(a, t[k] + 1) < |a| {
      if k < |s| - 1 { StopStep(p, e, s, k); }
    }
    assert t[|s|] == n && StopFrom(a, n + 1) == |a|;
  }

  lemma TailStay(p: Log, e: Entry, s: seq<nat>)
    requires forall k :: 0 <= k < |s| ==> s[k] < |p|
    requires Tail(p, s) && !IsStart(p + [e], |p|)
    ensures Tail(p + [e], s)
  {
    FreshStep(p, e);
    forall k | 0 <= k < |s| - 1 ensures StopFrom(p + [e], s[k] + 1) < |p| + 1 {
      StopStep(p, e, s, k);
    }
    if s != [] { LastStop(p, e, s); }
  }

  lemma TailStep(p: Log, e: Entry, s: seq<nat>)
    requires forall k :: 0 <= k < |s| ==> s[k] < |p|
    requires Tail(p, s)
    ensures Tail(p + [e], s + (if IsStart(p + [e], |p|) then [|p|] else []))
  {
    if IsStart(p + [e], |p|) {
      TailStart(p, e, s);
    } else {
      TailStay(p, e, s);
      assert s + [] == s;
    }
  }
}
