/**
 The lighting arithmetic said in integers: every level the computation rounds is the nearest whole
 percentage of an exact fraction, and every window is a stretch of minutes.
 */
module LampIntegers {
  import opened GoMath
  import opened LampWindows
  import opened LampModel

  // ---- rounding ----

  /** r is num / den rounded to the nearest whole number, halves going up. */
  predicate Nearest(num: int, den: int, r: int) {
    2 * (den * r) - den <= 2 * num < 2 * (den * r) + den
  }

  lemma Stretch(x: real, y: real, d: real, xd: real, yd: real)
    requires d > 0.0 && xd == x * d && yd == y * d
    ensures x <= y ==> xd <= yd
    ensures x < y ==> xd < yd
  {
  }

  lemma Distribute(x: real, y: real, d: real, xd: real, yd: real)
    requires xd == x * d && yd == y * d
    ensures (x + y) * d == xd + yd
  {
  }

  /** Scaling the bounds of a rounded value. */
  lemma StretchRounded(a: real, x: real, d: real, ad: real, xd: real)
    requires a <= x + 0.5 < a + 1.0 && d > 0.0 && ad == a * d && xd == x * d
    ensures ad <= xd + 0.5 * d < ad + d
  {
    var middle, upper := xd + 0.5 * d, ad + d;
    Distribute(x, 0.5, d, xd, 0.5 * d);
    Distribute(a, 1.0, d, ad, d);
    Stretch(a, x + 0.5, d, ad, middle);
    Stretch(x + 0.5, a + 1.0, d, middle, upper);
  }

  lemma WholeProduct(r: int, d: int)
    ensures r as real * d as real == (d * r) as real
  {
  }

  lemma DoubleInIntegers(n: int, d: int, q: int)
    requires q as real <= n as real + 0.5 * (d as real)
    requires n as real + 0.5 * (d as real) < q as real + (d as real)
    ensures 2 * q - d <= 2 * n < 2 * q + d
  {
  }

  lemma RoundedInIntegers(n: int, d: int, q: int, p: real, e: real)
    requires e == d as real && p == n as real
    requires q as real <= p + 0.5 * e && p + 0.5 * e < q as real + e
    ensures 2 * q - d <= 2 * n < 2 * q + d
  {
    DoubleInIntegers(n, d, q);
  }

  lemma RoundIsNearest(n: int, d: int, x: real)
    requires d > 0 && x >= 0.0 && x * (d as real) == n as real
    ensures Nearest(n, d, Round(x))
  {
    var r, e := Round(x), d as real;
    FloorBounds(x + 0.5, r);
    WholeProduct(r, d);
    StretchRounded(r as real, x, e, (d * r) as real, n as real);
    RoundedInIntegers(n, d, d * r, n as real, e);
  }

  lemma FloorBounds(x: real, r: int)
    requires r == x.Floor
    ensures r as real <= x < r as real + 1.0
  {
  }

  // ---- interpolation ----

  lemma MixTimesSixty(lo: int, hi: int, m: int)
    ensures Mix(lo as real, hi as real, m as real / 60.0) * 60.0 == ((60 - m) * lo + m * hi) as real
  {
    var f := m as real / 60.0;
    assert f * 60.0 == m as real;
    MixAsSum(lo as real, hi as real, f);
    assert Scaled(hi as real, f) * 60.0 == hi as real * m as real == (m * hi) as real;
    assert Scaled(lo as real, 1.0 - f) * 60.0 == lo as real * (60 - m) as real == ((60 - m) * lo) as real;
  }

  lemma BlendIsNearest(lo: int, hi: int, m: int)
    requires 0 <= lo <= 100 && 0 <= hi <= 100 && 0 <= m < 60
    ensures Nearest((60 - m) * lo + m * hi, 60, Blend(lo, hi, m))
  {
    var x := Mix(lo as real, hi as real, m as real / 60.0);
    MixMonotone(0.0, 0.0, lo as real, hi as real, m as real / 60.0);
    MixMonotone(lo as real, hi as real, 100.0, 100.0, m as real / 60.0);
    MixTimesSixty(lo, hi, m);
    RoundIsNearest((60 - m) * lo + m * hi, 60, x);
    RoundMonotone(x, 100.0);
  }

  /** Between two whole hours a channel is the weighted mean of its two rows, to the nearest percent. */
  lemma InterpolatedIsWeightedMean(s: Schedule, h: int, m: int, i: nat)
    requires IsSchedule(s) && h >= 0 && 0 <= m < 60 && i < CHANNELS
    requires 0 <= s[h % 24][2 + i] <= 100 && 0 <= s[(h + 1) % 24][2 + i] <= 100
    ensures var lo, hi, ch := s[h % 24][2 + i], s[(h + 1) % 24][2 + i], Interpolated(s, h, m)[i];
            60 * ch - 30 <= (60 - m) * lo + m * hi < 60 * ch + 30
  {
    BlendIsNearest(s[h % 24][2 + i], s[(h + 1) % 24][2 + i], m);
  }

  // ---- percentages ----

  lemma PercentIsNearest(v: int, pct: int)
    requires v >= 0 && pct >= 0
    ensures Nearest(v * pct, 100, Percent(v, pct))
  {
    var x := Scaled(v as real, pct as real);
    WholeProduct(v, pct);
    assert x == (v * pct) as real;
    RoundIsNearest(v * pct, 100, x / 100.0);
  }

  /** Below a hundred percent of a percentage is a percentage. */
  lemma PartOfLevel(v: int, pct: int)
    requires 0 <= v <= 100 && 0 <= pct <= 100
    ensures Nearest(v * pct, 100, Percent(v, pct)) && 0 <= Percent(v, pct) <= 100
  {
    PercentIsNearest(v, pct);
    PercentMonotone(v, 100, pct);
    PercentOfHundred(pct);
  }

  /** A row of the effective schedule: the schedule at that time less the shift, scaled by the acclimation percentage. */
  lemma EffectiveRowIsScaled(base: Schedule, shift: int, pct: int, h: nat, i: nat)
    requires IsSchedule(base) && h < SLOTS && i < CHANNELS && 0 <= pct <= 100
    ensures var minute := (60 * h - shift) % 1440;
            Nearest(Interpolated(base, minute / 60, minute % 60)[i] * pct, 100, EffectiveRow(base, shift, pct, h)[2 + i])
  {
    var sample := WrapMinutes(h * 60 - shift);
    PartOfLevel(Interpolated(base, sample / 60, sample % 60)[i], pct);
  }

  /** The master scales a level to the nearest percent, and stops at a hundred. */
  lemma MasterIsNearest(v: int, master: int)
    requires 0 <= v <= 100 && master >= 0
    ensures var r := MasterLevel(v, master);
            r <= 100 && (Nearest(v * master, 100, r) || (r == 100 && v * master >= 9950))
  {
    PercentIsNearest(v, master);
    PercentOfHundred(v);
  }

  // ---- siesta ----

  /** A siesta of depth d takes d percent off every level. */
  lemma SiestaIsNearest(c: Config, ch: Levels, t: Moment, i: nat)
    requires InRange(ch) && i < |ch| && SiestaActive(c, t) && 1 <= c.siesta.intensity <= 100
    ensures Nearest(ch[i] * (100 - c.siesta.intensity), 100, Rested(c, ch, t)[i])
  {
    PartOfLevel(ch[i], 100 - c.siesta.intensity);
  }

  lemma WindowFrom(now: int, begin: int, duration: int)
    requires InDay(now) && 0 < duration < DAY_MINUTES
    ensures var s := WrapMinutes(begin);
      InTimeWindow(now, s, WrapMinutes(s + duration)) <==> (now - begin) % DAY_MINUTES < duration
  {
    SameDistance(now, begin, 0);
    WrapShift(now, 0);
    MovedWindow(duration, now, WrapMinutes(begin), (now - begin) % DAY_MINUTES);
  }

  /** It lasts its duration from its start, which the total shift moves, or from one o'clock. */
  lemma SiestaHours(c: Config, t: Moment)
    requires IsMoment(t) && 0 < c.siesta.duration < 1440
    ensures SiestaActive(c, t) <==>
      c.siesta.enabled
      && (60 * t.hour + t.minute - ((if c.siesta.start < 0 then 780 else c.siesta.start) + TotalShift(c, t))) % 1440
         < c.siesta.duration
  {
    var begin := (if c.siesta.start < 0 then 780 else c.siesta.start) + TotalShift(c, t);
    WindowFrom(t.hour * 60 + t.minute, begin, c.siesta.duration);
  }

  // ---- acclimation and season ----

  /** On day number `day` of the acclimation the percentage is on the line from the start to a hundred. */
  lemma AcclimationInDays(a: Acclimation, day: int, second: int, unix: int)
    requires a.enabled && 1 <= a.startPercent < 100 && a.durationDays > 0 && a.startEpoch != 0
    requires day >= 0 && 0 <= second < 86400 && unix == a.startEpoch + 86400 * day + second
    ensures var pct := AcclimationPercent(a, unix);
            && (day == 0 ==> pct == a.startPercent) && (day >= a.durationDays ==> pct == 100)
            && (day < a.durationDays ==>
                  Nearest(a.startPercent * (a.durationDays - day) + 100 * day, a.durationDays, pct))
  {
    assert Quot(unix - a.startEpoch, 86400) == day;
    AcclimationIsRamp(a, unix);
    if day == 0 {
      assert a.startPercent * a.durationDays == a.durationDays * a.startPercent;
    } else if day < a.durationDays {
      RampIsNearest(a, day);
      RampStart(a);
      RampMonotone(a, 0, day);
      RampEnd(a);
      RampMonotone(a, day, a.durationDays);
    }
  }

  lemma RampEnd(a: Acclimation)
    requires a.durationDays > 0
    ensures Ramp(a, a.durationDays) == 100
  {
    assert a.durationDays as real / a.durationDays as real == 1.0;
    RoundOfInt(100);
  }

  lemma LineTimesDays(s: real, x: real, d: real, day: real)
    requires d > 0.0 && x == day / d
    ensures (s + x * (100.0 - s)) * d == s * (d - day) + 100.0 * day
  {
    assert x * d == day;
    assert (x * (100.0 - s)) * d == (x * d) * (100.0 - s);
  }

  lemma RampIsNearest(a: Acclimation, day: int)
    requires 1 <= a.startPercent < 100 && 0 <= day < a.durationDays
    ensures Nearest(a.startPercent * (a.durationDays - day) + 100 * day, a.durationDays, Ramp(a, day))
  {
    var s, d := a.startPercent, a.durationDays;
    var x := day as real / d as real;
    LineTimesDays(s as real, x, d as real, day as real);
    WholeProduct(s, d - day);
    assert (s * (d - day) + 100 * day) as real == (s * (d - day)) as real + 100.0 * day as real;
    DivMonotone(0.0, day as real, d as real);
    Times(0.0, x, (100 - s) as real);
    RoundIsNearest(s * (d - day) + 100 * day, d, Line(a, x));
  }

  /** The season moves the schedule by the yearly cosine times the largest shift, to the nearest minute. */
  lemma SeasonIsNearest(s: Seasonal, yearCosine: real)
    requires s.enabled && 0 < s.maxShift <= 180
    ensures var exact := yearCosine * s.maxShift as real;
            exact - 0.5 <= SeasonalShift(s, yearCosine) as real <= exact + 0.5
  {
  }

  // ---- moonlight ----

  /** Moonlight lifts the second channel to its percentage, on the larger lamp the fifth to seven tenths of it, and no other. */
  lemma MoonlightLifts(c: Config, ch: Levels, t: Moment)
    requires |ch| == CHANNELS && MoonPercent(c, t) > 0
    ensures var r, moon := Moonlit(c, ch, t), MoonPercent(c, t);
            && r[1] == (if ch[1] < moon then moon else ch[1])
            && (forall i :: 0 <= i < 6 && i != 1 && !(c.pro && i == 4) ==> r[i] == ch[i])
            && (c.pro ==> exists halo :: Nearest(7 * moon, 10, halo) && r[4] == if ch[4] < halo then halo else ch[4])
  {
    var moon := MoonPercent(c, t);
    assert Scaled(moon as real, 0.7) * 10.0 == (7 * moon) as real;
    RoundIsNearest(7 * moon, 10, Scaled(moon as real, 0.7));
    assert Nearest(7 * moon, 10, HaloPercent(moon));
  }

  lemma NoMoonlight(c: Config, ch: Levels, t: Moment)
    requires |ch| == CHANNELS && MoonPercent(c, t) <= 0
    ensures Moonlit(c, ch, t) == ch
  {
  }

  /** With k hundredths of the moon lit it is that part of the largest intensity, to the nearest percent. */
  lemma MoonPercentIsNearest(c: Config, t: Moment, k: int)
    requires 0 <= c.lunar.maxIntensity <= 100 && 0 <= k <= 100 && t.illumination == k as real / 100.0
    ensures Nearest(c.lunar.maxIntensity * k, 100, MoonPercent(c, t))
  {
    var x := Scaled(c.lunar.maxIntensity as real, t.illumination);
    PartOfLevel(c.lunar.maxIntensity, k);
    WholeProduct(c.lunar.maxIntensity, k);
    assert x * 100.0 == (c.lunar.maxIntensity * k) as real;
    assert x == Scaled(c.lunar.maxIntensity as real, k as real) / 100.0;
  }

  // ---- the whole computation ----

  /** Siesta and master come in that order: half of full light, doubled, is full light again. */
  lemma SiestaBeforeMaster(c: Config, ch: Levels, t: Moment, i: nat)
    requires InRange(ch) && i < |ch| && ch[i] == 100 && SiestaActive(c, t) && c.siesta.intensity == 50 && c.master == 200
    ensures Mastered(Rested(c, ch, t), c.master)[i] == 100
  {
    SiestaIsNearest(c, ch, t, i);
    assert Rested(c, ch, t)[i] == 50;
    MasterIsNearest(50, 200);
  }

  /** What the siesta leaves of a level. */
  predicate Rests(c: Config, t: Moment, lit: int, rest: int) {
    if SiestaActive(c, t) && c.siesta.intensity >= 1 then Nearest(lit * (100 - c.siesta.intensity), 100, rest) else rest == lit
  }

  /** What the master makes of it. */
  predicate Masters(rest: int, master: int, out: int) {
    out <= 100 && (Nearest(rest * master, 100, out) || (out == 100 && rest * master >= 9950))
  }

  lemma SiestaThenMaster(c: Config, ch: Levels, t: Moment, i: nat) returns (rest: int)
    requires InRange(ch) && i < |ch| && c.master >= 0 && c.siesta.intensity <= 100
    ensures Rests(c, t, ch[i], rest) && Masters(rest, c.master, Mastered(Rested(c, ch, t), c.master)[i])
  {
    rest := Rested(c, ch, t)[i];
    RestedInRange(c, ch, t);
    if SiestaActive(c, t) && c.siesta.intensity >= 1 { SiestaIsNearest(c, ch, t, i); }
    MasterIsNearest(rest, c.master);
  }

  /** Outside the moon the computed light is the effective schedule at this minute through siesta and then master. */
  lemma DaylightInIntegers(c: Config, base: Schedule, t: Moment, i: nat) returns (rest: int)
    requires IsSchedule(base) && IsMoment(t) && i < CHANNELS && !MoonShines(c, base, t)
    requires c.master >= 0 && c.siesta.intensity <= 100
    ensures Rests(c, t, Interpolated(EffectiveAt(c, base, t), t.hour, t.minute)[i], rest)
    ensures Masters(rest, c.master, Computed(c, base, t)[i])
  {
    rest := SiestaThenMaster(c, Interpolated(EffectiveAt(c, base, t), t.hour, t.minute), t, i);
  }

  /** Moonlight comes last: neither siesta nor master dims it. */
  lemma MoonlightIsUndimmed(c: Config, base: Schedule, t: Moment)
    requires IsSchedule(base) && IsMoment(t) && MoonShines(c, base, t) && MoonPercent(c, t) > 0
    ensures Computed(c, base, t)[1] >= MoonPercent(c, t)
  {
    MoonlightLifts(c, Daylight(c, base, t), t);
  }
}
