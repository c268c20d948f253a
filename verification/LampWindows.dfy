/**
 Circular time windows of the lighting engine (internal/engine/model.go): membership, length, and
 the clamping of the moon window to the night.
 */
module LampWindows {
  import opened GoMath

  const DAY_MINUTES := 1440

  function WrapMinutes(mins: int): (m: int)
    ensures 0 <= m < DAY_MINUTES && m == mins % DAY_MINUTES
  {
    var r := Rem(mins, DAY_MINUTES);
    if r < 0 then r + DAY_MINUTES else r
  }

  function WindowLen(start: int, end: int): int {
    var l := end - start;
    if l <= 0 then l + DAY_MINUTES else l
  }

  predicate InTimeWindow(now: int, start: int, end: int) {
    if start == end then false
    else if start < end then now >= start && now < end
    else now >= start || now < end
  }

  predicate InDay(m: int) {
    0 <= m < DAY_MINUTES
  }

  /** A window as the overlays use it: both ends within the day and distinct. */
  predicate IsWindow(start: int, end: int) {
    InDay(start) && InDay(end) && start != end
  }

  /** Clock times up to 24:00, as the settings may hold. */
  predicate IsNight(start: int, end: int) {
    0 <= start <= DAY_MINUTES && 0 <= end <= DAY_MINUTES && start != end
  }

  // ---- the six unrolled overlaps ----

  /** The raw window is tried i days off (-1, 0, 1) against the night window j days off (0, 1). */
  predicate IsTry(i: int, j: int) {
    -1 <= i <= 1 && 0 <= j <= 1
  }

  predicate TriedBefore(i: int, j: int, k: int, l: int) {
    i < k || (i == k && j < l)
  }

  /** Two windows by start and end. */
  datatype Windows = Windows(start: int, end: int, clampStart: int, clampEnd: int)

  function OverlapStart(w: Windows, i: int, j: int): int {
    Max(w.start + i * DAY_MINUTES, w.clampStart + j * DAY_MINUTES)
  }

  function OverlapEnd(w: Windows, i: int, j: int): int {
    Min(w.start + i * DAY_MINUTES + WindowLen(w.start, w.end),
        w.clampStart + j * DAY_MINUTES + WindowLen(w.clampStart, w.clampEnd))
  }

  function Overlap(w: Windows, i: int, j: int): int {
    OverlapEnd(w, i, j) - OverlapStart(w, i, j)
  }

  /** The try (i, j) is the first, among those before (k, l), with the largest overlap. */
  ghost predicate FirstLargest(w: Windows, i: int, j: int, k: int, l: int) {
    && IsTry(i, j) && TriedBefore(i, j, k, l)
    && (forall p, q :: IsTry(p, q) && TriedBefore(p, q, i, j) ==> Overlap(w, p, q) < Overlap(w, i, j))
    && (forall p, q :: IsTry(p, q) && TriedBefore(p, q, k, l) ==> Overlap(w, p, q) <= Overlap(w, i, j))
  }

  /** What the search returns: nothing when no overlap is positive, else the first largest one. */
  ghost predicate IsClamped(w: Windows, s: int, e: int, ok: bool) {
    if ok then
      exists i, j ::
        && FirstLargest(w, i, j, 2, 0)
        && Overlap(w, i, j) > 0
        && s == WrapMinutes(OverlapStart(w, i, j))
        && e == WrapMinutes(OverlapEnd(w, i, j))
    else
      forall i, j :: IsTry(i, j) ==> Overlap(w, i, j) <= 0
  }

  /** Search state before the try (k, l): nothing above -1 yet, or the first largest so far. */
  ghost predicate Best(w: Windows, i: int, j: int, k: int, l: int, overlap: int, s: int, e: int) {
    || (overlap == -1 && forall p, q :: IsTry(p, q) && TriedBefore(p, q, k, l) ==> Overlap(w, p, q) <= -1)
    || (FirstLargest(w, i, j, k, l) && overlap == Overlap(w, i, j)
        && s == OverlapStart(w, i, j) && e == OverlapEnd(w, i, j))
  }

  lemma BestStep(w: Windows, i: int, j: int, k: int, l: int, overlap: int, s: int, e: int)
    requires IsTry(k, l) && Best(w, i, j, k, l, overlap, s, e)
    ensures Overlap(w, k, l) > overlap ==>
              Best(w, k, l, k, l + 1, Overlap(w, k, l), OverlapStart(w, k, l), OverlapEnd(w, k, l))
    ensures Overlap(w, k, l) <= overlap ==> Best(w, i, j, k, l + 1, overlap, s, e)
  {
    forall p, q | IsTry(p, q) && TriedBefore(p, q, k, l + 1)
      ensures TriedBefore(p, q, k, l) || (p == k && q == l) {}
  }

  lemma BestNextRow(w: Windows, i: int, j: int, k: int, overlap: int, s: int, e: int)
    requires Best(w, i, j, k, 2, overlap, s, e)
    ensures Best(w, i, j, k + 1, 0, overlap, s, e)
  {
    forall p, q | IsTry(p, q) && TriedBefore(p, q, k + 1, 0) ensures TriedBefore(p, q, k, 2) {}
  }

  method ClampWindowToNight(start: int, end: int, clampStart: int, clampEnd: int)
    returns (s: int, e: int, ok: bool)
    ensures IsClamped(Windows(start, end, clampStart, clampEnd), s, e, ok)
  {
    ghost var w := Windows(start, end, clampStart, clampEnd);
    var rawLen := WindowLen(start, end);
    var clampLen := WindowLen(clampStart, clampEnd);
    var bestOverlap, bestStart, bestEnd := -1, 0, 0;
    ghost var bi, bj, i := 0, 0, -1;
    var rawShift := -DAY_MINUTES;
    while rawShift <= DAY_MINUTES
      invariant -1 <= i <= 2 && rawShift == i * DAY_MINUTES
      invariant Best(w, bi, bj, i, 0, bestOverlap, bestStart, bestEnd)
    {
      var ss := start + rawShift;
      var se := ss + rawLen;
      var cShift := 0;
      ghost var j := 0;
      while cShift <= DAY_MINUTES
        invariant 0 <= j <= 2 && cShift == j * DAY_MINUTES
        invariant Best(w, bi, bj, i, j, bestOverlap, bestStart, bestEnd)
      {
        var cs := clampStart + cShift;
        var ce := cs + clampLen;
        var os := Max(ss, cs);
        var oe := Min(se, ce);
        assert os == OverlapStart(w, i, j) && oe == OverlapEnd(w, i, j);
        BestStep(w, bi, bj, i, j, bestOverlap, bestStart, bestEnd);
        if oe - os > bestOverlap {
          bestOverlap, bestStart, bestEnd := oe - os, os, oe;
          bi, bj := i, j;
        }
        j := j + 1;
        cShift := cShift + DAY_MINUTES;
      }
      BestNextRow(w, bi, bj, i, bestOverlap, bestStart, bestEnd);
      i := i + 1;
      rawShift := rawShift + DAY_MINUTES;
    }
    if bestOverlap <= 0 {
      return 0, 0, false;
    }
    return WrapMinutes(bestStart), WrapMinutes(bestEnd), true;
  }

  // ---- unrolling the circle ----

  /** A minute is in a window exactly when one of its two unrolled copies is in the unrolled window. */
  lemma Unroll(m: int, start: int, end: int)
    requires InDay(m) && IsNight(start, end)
    ensures InTimeWindow(m, start, end) <==>
            (start <= m < start + WindowLen(start, end)
             || start <= m + DAY_MINUTES < start + WindowLen(start, end))
  {
  }

  /** The day copy of an unrolled minute. */
  lemma WrapInWindow(x: int, start: int, end: int, lift: int)
    requires IsNight(start, end)
    requires start + lift * DAY_MINUTES <= x < start + lift * DAY_MINUTES + WindowLen(start, end)
    ensures InTimeWindow(WrapMinutes(x), start, end)
  {
    var m := WrapMinutes(x);
    assert x - m == (x / DAY_MINUTES) * DAY_MINUTES;
    var q := x / DAY_MINUTES - lift;
    assert start <= m + q * DAY_MINUTES < start + WindowLen(start, end);
    assert q == 0 || q == 1;
    Unroll(m, start, end);
  }

  /** Minute j of the arc that starts at a. */
  function ArcMinute(a: int, j: int): int {
    WrapMinutes(a + j)
  }

  /** A contiguous arc of len minutes from a lies inside a window. */
  ghost predicate ArcInside(a: int, len: int, start: int, end: int) {
    InDay(a) && len >= 1 && forall j :: 0 <= j < len ==> InTimeWindow(ArcMinute(a, j), start, end)
  }

  lemma WrapShift(m: int, days: int)
    requires InDay(m)
    ensures WrapMinutes(m + days * DAY_MINUTES) == m
  {
    assert (m + days * DAY_MINUTES) / DAY_MINUTES == days;
  }

  lemma ArcReaches(a: int, j: int, m: int, days: int)
    requires InDay(m) && a + j == m + days * DAY_MINUTES
    ensures ArcMinute(a, j) == m
  {
    WrapShift(m, days);
  }

  /** An arc inside a window stops before the window's end, which is no minute of it. */
  lemma ArcStops(a: int, len: int, start: int, end: int, j: int, days: int)
    requires IsWindow(start, end) && ArcInside(a, len, start, end)
    requires j >= 0 && a + j == end + days * DAY_MINUTES
    ensures len <= j
  {
    ArcReaches(a, j, end, days);
    assert !InTimeWindow(ArcMinute(a, j), start, end);
  }

  /** A contiguous arc inside a window unrolls to an interval inside the unrolled window. */
  lemma LiftArc(a: int, len: int, start: int, end: int) returns (lift: int)
    requires IsWindow(start, end) && ArcInside(a, len, start, end)
    ensures lift == 0 || lift == 1
    ensures start <= a + lift * DAY_MINUTES && a + len + lift * DAY_MINUTES <= start + WindowLen(start, end)
  {
    ArcReaches(a, 0, a, 0);
    assert InTimeWindow(ArcMinute(a, 0), start, end);
    Unroll(a, start, end);
    lift := if start <= a < start + WindowLen(start, end) then 0 else 1;
    var over := if start < end then 0 else 1;
    ArcStops(a, len, start, end, start + WindowLen(start, end) - a - lift * DAY_MINUTES, over - lift);
  }

  // ---- main results ----

  ghost predicate CommonMinute(m: int, w: Windows) {
    InDay(m) && InTimeWindow(m, w.start, w.end) && InTimeWindow(m, w.clampStart, w.clampEnd)
  }

  ghost predicate CommonArc(a: int, len: int, w: Windows) {
    ArcInside(a, len, w.start, w.end) && ArcInside(a, len, w.clampStart, w.clampEnd)
  }

  ghost predicate Proper(w: Windows) {
    IsWindow(w.start, w.end) && IsWindow(w.clampStart, w.clampEnd)
  }

  /** Every common arc fits into one of the overlaps. */
  lemma ArcInOverlap(a: int, len: int, w: Windows) returns (i: int)
    requires Proper(w) && CommonArc(a, len, w)
    ensures IsTry(i, 0) && TriedBefore(i, 0, 2, 0) && len <= Overlap(w, i, 0)
  {
    var r := LiftArc(a, len, w.start, w.end);
    var c := LiftArc(a, len, w.clampStart, w.clampEnd);
    // raw copy r and night copy c coincide once the raw window is moved by c - r days
    i := c - r;
  }

  lemma WrapIsWindow(x: int, y: int)
    requires 0 < y - x < DAY_MINUTES
    ensures IsWindow(WrapMinutes(x), WrapMinutes(y)) && WindowLen(WrapMinutes(x), WrapMinutes(y)) == y - x
  {
  }

  /** An overlap with a proper night is shorter than a day, so it wraps to a window of its length. */
  lemma OverlapIsWindow(w: Windows, i: int, j: int)
    requires IsWindow(w.clampStart, w.clampEnd) && Overlap(w, i, j) > 0
    ensures var s, e := WrapMinutes(OverlapStart(w, i, j)), WrapMinutes(OverlapEnd(w, i, j));
            IsWindow(s, e) && WindowLen(s, e) == Overlap(w, i, j)
  {
    WrapIsWindow(OverlapStart(w, i, j), OverlapEnd(w, i, j));
  }

  /** Every minute of a wrapped interval has a copy in the interval. */
  lemma UnwrapMinute(m: int, x: int, y: int) returns (q: int)
    requires 0 < y - x < DAY_MINUTES && InDay(m) && InTimeWindow(m, WrapMinutes(x), WrapMinutes(y))
    ensures x <= m + q * DAY_MINUTES < y
  {
    WrapIsWindow(x, y);
    Unroll(m, WrapMinutes(x), WrapMinutes(y));
    var lift := if WrapMinutes(x) <= m < WrapMinutes(x) + (y - x) then 0 else 1;
    assert x - WrapMinutes(x) == (x / DAY_MINUTES) * DAY_MINUTES;
    q := lift + x / DAY_MINUTES;
  }

  lemma OverlapInside(m: int, w: Windows, i: int, j: int)
    requires InDay(m) && IsNight(w.clampStart, w.clampEnd) && 0 < Overlap(w, i, j) < DAY_MINUTES
    requires InTimeWindow(m, WrapMinutes(OverlapStart(w, i, j)), WrapMinutes(OverlapEnd(w, i, j)))
    ensures InTimeWindow(m, w.clampStart, w.clampEnd)
    ensures IsWindow(w.start, w.end) ==> InTimeWindow(m, w.start, w.end)
  {
    var q := UnwrapMinute(m, OverlapStart(w, i, j), OverlapEnd(w, i, j));
    var x := m + q * DAY_MINUTES;
    WrapShift(m, q);
    WrapInWindow(x, w.clampStart, w.clampEnd, j);
    if IsWindow(w.start, w.end) {
      WrapInWindow(x, w.start, w.end, i);
    }
  }

  /** The window found, and the overlap it comes from. */
  lemma ClampedWindow(w: Windows, s: int, e: int) returns (i: int, j: int)
    requires Proper(w) && IsClamped(w, s, e, true)
    ensures FirstLargest(w, i, j, 2, 0) && 0 < Overlap(w, i, j) < DAY_MINUTES
    ensures s == WrapMinutes(OverlapStart(w, i, j)) && e == WrapMinutes(OverlapEnd(w, i, j))
    ensures IsWindow(s, e) && WindowLen(s, e) == Overlap(w, i, j) && InTimeWindow(s, s, e)
  {
    i, j :| FirstLargest(w, i, j, 2, 0) && Overlap(w, i, j) > 0
            && s == WrapMinutes(OverlapStart(w, i, j)) && e == WrapMinutes(OverlapEnd(w, i, j));
    OverlapIsWindow(w, i, j);
  }

  lemma CommonMeansFound(m: int, w: Windows, s: int, e: int, ok: bool)
    requires Proper(w) && IsClamped(w, s, e, ok) && CommonMinute(m, w)
    ensures ok
  {
    MinuteIsArc(m, w.start, w.end);
    MinuteIsArc(m, w.clampStart, w.clampEnd);
    var i := ArcInOverlap(m, 1, w);
  }

  lemma MinuteIsArc(m: int, start: int, end: int)
    requires InDay(m) && InTimeWindow(m, start, end)
    ensures ArcInside(m, 1, start, end)
  {
    ArcReaches(m, 0, m, 0);
  }

  lemma CommonArcFits(a: int, len: int, w: Windows, i: int, j: int)
    requires Proper(w) && CommonArc(a, len, w) && FirstLargest(w, i, j, 2, 0)
    ensures len <= Overlap(w, i, j)
  {
    var p := ArcInOverlap(a, len, w);
  }

  /**
   For proper windows the search fails exactly when the two windows share no minute. Otherwise the
   window it returns lies inside both and no contiguous arc inside both is longer.
   */
  lemma ClampIsLongestCommonArc(w: Windows, s: int, e: int, ok: bool)
    requires Proper(w) && IsClamped(w, s, e, ok)
    ensures ok <==> exists m :: CommonMinute(m, w)
    ensures ok ==> IsWindow(s, e)
    ensures ok ==> forall m :: InDay(m) && InTimeWindow(m, s, e) ==> CommonMinute(m, w)
    ensures ok ==> forall a, len :: CommonArc(a, len, w) ==> len <= WindowLen(s, e)
  {
    forall m | CommonMinute(m, w) ensures ok {
      CommonMeansFound(m, w, s, e, ok);
    }
    if ok {
      var i, j := ClampedWindow(w, s, e);
      forall m | InDay(m) && InTimeWindow(m, s, e) ensures CommonMinute(m, w) {
        OverlapInside(m, w, i, j);
      }
      assert CommonMinute(s, w);
      forall a, len | CommonArc(a, len, w) ensures len <= WindowLen(s, e) {
        CommonArcFits(a, len, w, i, j);
      }
    }
  }

  /** A window of len minutes holds exactly the minutes less than len after its start, around the day. */
  lemma WindowIsElapsed(now: int, start: int, len: int)
    requires InDay(now) && 0 < len < DAY_MINUTES
    ensures InTimeWindow(now, WrapMinutes(start), WrapMinutes(start + len)) <==> (now - start) % DAY_MINUTES < len
  {
    var s := WrapMinutes(start);
    var days := start / DAY_MINUTES;
    assert start == s + days * DAY_MINUTES;
    DayShift(now - s, -days);
    DayShift(s + len, days);
    assert (now - start) % DAY_MINUTES == (now - s) % DAY_MINUTES;
    assert WrapMinutes(start + len) == (s + len) % DAY_MINUTES;
  }

  lemma DayShift(x: int, days: int)
    ensures (x + days * DAY_MINUTES) % DAY_MINUTES == x % DAY_MINUTES
  {
    assert (x + days * DAY_MINUTES) / DAY_MINUTES == x / DAY_MINUTES + days;
  }

  // ---- the moon window ----

  /** The times of the moon window as parsed from the settings; -1 stands for an unreadable time. */
  datatype LunarTimes = LunarTimes(start: int, end: int, clampStart: int, clampEnd: int, track: bool)
  {
    function Start(): int { OrDefault(start, 18 * 60 + 30) }
    function End(): int { OrDefault(end, 6 * 60 + 30) }
    function NightStart(): int { OrDefault(clampStart, 18 * 60) }
    function NightEnd(): int { OrDefault(clampEnd, 8 * 60) }

    /** The raw window, moved by the moonrise shift, against the night. */
    function Shifted(shift: int): Windows {
      var s := WrapMinutes(Start() + shift);
      Windows(s, WrapMinutes(s + WindowLen(Start(), End())), NightStart(), NightEnd())
    }
  }

  function OrDefault(v: int, default: int): int {
    if v < 0 then default else v
  }

  /** The shifted window, clamped to the night when tracking, or empty when they share no minute. */
  ghost predicate IsLunarWindow(t: LunarTimes, moonShift: int, start: int, end: int) {
    if t.track then
      exists s, e, ok ::
        && IsClamped(t.Shifted(moonShift), s, e, ok)
        && (if ok then start == s && end == e else start == end == t.Shifted(moonShift).start)
    else
      start == t.Shifted(0).start && end == t.Shifted(0).end
  }

  /**
   The window of the moon overlay, shifted by the moonrise minutes when tracking. Whatever the
   shift, every active minute of a tracked window lies inside a night between two different clock times.
   */
  method LunarWindow(t: LunarTimes, moonShift: int) returns (start: int, end: int)
    ensures IsLunarWindow(t, moonShift, start, end)
    ensures t.track && IsNight(t.NightStart(), t.NightEnd()) ==>
              forall m :: InDay(m) && InTimeWindow(m, start, end) ==>
                            InTimeWindow(m, t.NightStart(), t.NightEnd())
  {
    var rs, re := t.start, t.end;
    if rs < 0 { rs := 18 * 60 + 30; }
    if re < 0 { re := 6 * 60 + 30; }
    var wl := WindowLen(rs, re);
    var shift := 0;
    if t.track { shift := moonShift; }
    start := WrapMinutes(rs + shift);
    end := WrapMinutes(start + wl);
    if t.track {
      var cs, ce := t.clampStart, t.clampEnd;
      if cs < 0 { cs := 18 * 60; }
      if ce < 0 { ce := 8 * 60; }
      assert t.Shifted(moonShift) == Windows(start, end, cs, ce);
      var ns, ne, ok := ClampWindowToNight(start, end, cs, ce);
      if ok {
        start, end := ns, ne;
      } else {
        end := start;
      }
      assert IsClamped(t.Shifted(moonShift), ns, ne, ok);
    }
    if t.track && IsNight(t.NightStart(), t.NightEnd()) { LunarStaysInNight(t, moonShift, start, end); }
  }

  lemma LunarStaysInNight(t: LunarTimes, moonShift: int, start: int, end: int)
    requires t.track && IsNight(t.NightStart(), t.NightEnd()) && IsLunarWindow(t, moonShift, start, end)
    ensures forall m :: InDay(m) && InTimeWindow(m, start, end) ==> InTimeWindow(m, t.NightStart(), t.NightEnd())
  {
    var s, e, ok :| IsClamped(t.Shifted(moonShift), s, e, ok)
                    && (if ok then start == s && end == e else start == end == t.Shifted(moonShift).start);
    if ok { ClampStaysInNight(t.Shifted(moonShift), s, e); }
  }

  /** Without tracking the window is the configured one, whatever the moonrise shift. */
  lemma UntrackedWindow(t: LunarTimes, moonShift: int, start: int, end: int)
    requires !t.track && IsLunarWindow(t, moonShift, start, end) && InDay(t.start) && InDay(t.end)
    ensures start == t.start && end == t.end
  {
    WrapShift(t.end, if t.end <= t.start then 1 else 0);
  }

  /** An unreadable window runs from half past six in the evening to half past six in the morning. */
  lemma DefaultWindow(t: LunarTimes, moonShift: int, start: int, end: int)
    requires !t.track && IsLunarWindow(t, moonShift, start, end) && t.start < 0 && t.end < 0
    ensures forall m :: InDay(m) ==> (InTimeWindow(m, start, end) <==> m < 390 || m >= 1110)
  {
    assert t.Start() == 1110 && t.End() == 390;
    WrapShift(1110, 0);
    WrapShift(390, 1);
    assert start == 1110 && end == 390;
  }

  lemma ProperWindowIsElapsed(m: int, start: int, end: int)
    requires InDay(m) && IsWindow(start, end)
    ensures InTimeWindow(m, start, end) <==> (m - start) % DAY_MINUTES < WindowLen(start, end)
  {
    WindowIsElapsed(m, start, WindowLen(start, end));
    WrapShift(end, if end <= start then 1 else 0);
  }

  /** Moving two minutes around the day leaves their distance alone. */
  lemma SameDistance(m: int, n: int, shift: int)
    ensures (WrapMinutes(m + shift) - WrapMinutes(n + shift)) % DAY_MINUTES == (m - n) % DAY_MINUTES
  {
    var p, q := (m + shift) / DAY_MINUTES, (n + shift) / DAY_MINUTES;
    assert WrapMinutes(m + shift) - WrapMinutes(n + shift) == m - n + (q - p) * DAY_MINUTES;
    DayShift(m - n, q - p);
  }

  lemma MovedWindow(len: int, now: int, s: int, away: int)
    requires InDay(now) && InDay(s) && 0 < len < DAY_MINUTES
    requires (now - s) % DAY_MINUTES == away
    ensures InTimeWindow(now, s, WrapMinutes(s + len)) <==> away < len
  {
    WindowIsElapsed(now, s, len);
    WrapShift(s, 0);
  }

  /** An unreadable night is from six in the evening to eight in the morning. */
  lemma DefaultNight(t: LunarTimes, moonShift: int, start: int, end: int)
    requires t.track && t.clampStart < 0 && t.clampEnd < 0 && IsLunarWindow(t, moonShift, start, end)
    ensures forall m :: InDay(m) && InTimeWindow(m, start, end) ==> m < 480 || m >= 1080
  {
    LunarStaysInNight(t, moonShift, start, end);
  }

  /** Tracking moves every minute of the configured window by the moonrise shift. */
  lemma TrackedWindowMoves(t: LunarTimes, moonShift: int, m: int)
    requires InDay(m) && IsWindow(t.start, t.end)
    ensures var w := t.Shifted(moonShift);
            InTimeWindow(WrapMinutes(m + moonShift), w.start, w.end) <==> InTimeWindow(m, t.start, t.end)
  {
    var len := WindowLen(t.start, t.end);
    ProperWindowIsElapsed(m, t.start, t.end);
    SameDistance(m, t.start, moonShift);
    MovedWindow(len, WrapMinutes(m + moonShift), WrapMinutes(t.start + moonShift), (m - t.start) % DAY_MINUTES);
  }

  lemma ClampStaysInNight(w: Windows, s: int, e: int)
    requires IsNight(w.clampStart, w.clampEnd) && IsClamped(w, s, e, true)
    ensures forall m :: InDay(m) && InTimeWindow(m, s, e) ==> InTimeWindow(m, w.clampStart, w.clampEnd)
  {
    var i, j :| FirstLargest(w, i, j, 2, 0) && Overlap(w, i, j) > 0
                && s == WrapMinutes(OverlapStart(w, i, j)) && e == WrapMinutes(OverlapEnd(w, i, j));
    if Overlap(w, i, j) == DAY_MINUTES {
      // a whole day wraps to equal endpoints, between which there is no minute
      WrapWholeDay(OverlapStart(w, i, j));
    } else {
      forall m | InDay(m) && InTimeWindow(m, s, e) ensures InTimeWindow(m, w.clampStart, w.clampEnd) {
        OverlapInside(m, w, i, j);
      }
    }
  }

  lemma WrapWholeDay(x: int)
    ensures WrapMinutes(x + DAY_MINUTES) == WrapMinutes(x)
  {
  }

  /**
   Equal night endpoints mean a whole day to the clamp but no minute to the membership test: every
   proper moon window then stays active at some minute although no minute counts as night.
   */
  lemma EqualNightEndpointsDoNotClamp(w: Windows, s: int, e: int, ok: bool)
    requires IsWindow(w.start, w.end) && 0 <= w.clampStart <= DAY_MINUTES && w.clampEnd == w.clampStart
    requires IsClamped(w, s, e, ok)
    ensures ok && InDay(s) && InTimeWindow(s, s, e) && !InTimeWindow(s, w.clampStart, w.clampEnd)
  {
    assert Overlap(w, 0, 0) > 0 || Overlap(w, 1, 0) > 0;
    assert IsTry(0, 0) && IsTry(1, 0);
    var i, j :| FirstLargest(w, i, j, 2, 0) && Overlap(w, i, j) > 0
                && s == WrapMinutes(OverlapStart(w, i, j)) && e == WrapMinutes(OverlapEnd(w, i, j));
    WrapIsWindow(OverlapStart(w, i, j), OverlapEnd(w, i, j));
  }
}
