/**
 The lighting computation (internal/engine/model.go): interpolation, effective schedule, overlays
 and Compute. Arithmetic is over reals with rounding half away from zero.
 */
module LampModel {
  import opened GoMath
  import opened LampWindows

  const CHANNELS: nat := 6
  const SLOTS: nat := 24

  /** A row is hour, minute and six channel levels. */
  type Row = seq<int>
  type Schedule = seq<Row>
  type Levels = seq<int>

  predicate IsSchedule(s: Schedule) {
    |s| == SLOTS && forall h :: 0 <= h < SLOTS ==> |s[h]| == 2 + CHANNELS
  }

  /** Every level is a percentage. */
  predicate InRange(ch: Levels) {
    forall i :: 0 <= i < |ch| ==> 0 <= ch[i] <= 100
  }

  datatype Lunar = Lunar(enabled: bool, times: LunarTimes, maxIntensity: int, dayThreshold: int)
  datatype Siesta = Siesta(enabled: bool, start: int, duration: int, intensity: int)
  datatype Acclimation = Acclimation(enabled: bool, startPercent: int, durationDays: int, startEpoch: int)
  datatype Seasonal = Seasonal(enabled: bool, maxShift: int)
  datatype Config = Config(pro: bool, master: int, shift: int, lunar: Lunar, siesta: Siesta,
                           acclimation: Acclimation, seasonal: Seasonal)

  /** The wall clock and what the sky formulas give for it. */
  datatype Moment = Moment(unix: int, hour: int, minute: int, yearCosine: real, illumination: real,
                           lunarStart: int, lunarEnd: int)

  predicate IsMoment(t: Moment) {
    0 <= t.hour < 24 && 0 <= t.minute < 60
  }

  // ---- interpolation ----

  function Scaled(x: real, f: real): real {
    x * f
  }

  function Mix(lo: real, hi: real, f: real): real {
    lo + f * (hi - lo)
  }

  function Blend(lo: int, hi: int, m: int): int {
    Clamp(Round(Mix(lo as real, hi as real, m as real / 60.0)), 0, 100)
  }

  function Interpolated(s: Schedule, h: int, m: int): (ch: Levels)
    requires IsSchedule(s) && h >= 0
    ensures |ch| == CHANNELS && InRange(ch)
    ensures forall i :: 0 <= i < CHANNELS ==> ch[i] == Blend(s[h % SLOTS][2 + i], s[(h + 1) % SLOTS][2 + i], m)
  {
    seq(CHANNELS, i requires 0 <= i < CHANNELS => Blend(s[h % SLOTS][2 + i], s[(h + 1) % SLOTS][2 + i], m))
  }

  method Interpolate(s: Schedule, h: int, m: int) returns (out: array<int>)
    requires IsSchedule(s) && h >= 0
    ensures fresh(out) && out[..] == Interpolated(s, h, m)
  {
    var lo, hi := s[h % SLOTS], s[(h + 1) % SLOTS];
    var frac := m as real / 60.0;
    out := new int[CHANNELS];
    var i := 0;
    while i < CHANNELS
      invariant 0 <= i <= CHANNELS && out.Length == CHANNELS
      invariant forall k :: 0 <= k < i ==> out[k] == Interpolated(s, h, m)[k]
    {
      var v := Mix(lo[2 + i] as real, hi[2 + i] as real, frac);
      out[i] := Clamp(Round(v), 0, 100);
      i := i + 1;
    }
  }

  // ---- acclimation and season ----

  function AcclimationPercent(a: Acclimation, unix: int): int {
    if !a.enabled || a.startPercent >= 100 || a.durationDays <= 0 then 100
    else if a.startEpoch == 0 then a.startPercent
    else
      var elapsed := Quot(unix - a.startEpoch, 86400);
      if elapsed <= 0 then a.startPercent
      else if elapsed >= a.durationDays then 100
      else
        var frac := elapsed as real / a.durationDays as real;
        Clamp(Round(a.startPercent as real + Scaled(frac, (100 - a.startPercent) as real)), 1, 100)
  }

  function SeasonalShift(s: Seasonal, yearCosine: real): int {
    var max := Clamp(s.maxShift, 0, 180);
    if !s.enabled || max == 0 then 0 else Round(yearCosine * max as real)
  }

  function Percent(v: int, pct: int): int {
    Round(Scaled(v as real, pct as real) / 100.0)
  }

  /** Row h of the schedule resampled by a time shift and scaled by the acclimation percentage. */
  function EffectiveRow(base: Schedule, shift: int, pct: int, h: int): (row: Row)
    requires IsSchedule(base) && 0 <= h < SLOTS
    ensures |row| == 2 + CHANNELS && row[..2] == base[h][..2] && InRange(row[2..])
  {
    var sample := WrapMinutes(h * 60 - shift);
    var ch := Interpolated(base, sample / 60, sample % 60);
    base[h][..2] + seq(CHANNELS, c requires 0 <= c < CHANNELS => Clamp(Percent(ch[c], pct), 0, 100))
  }

  function Effective(base: Schedule, shift: int, pct: int): (eff: Schedule)
    requires IsSchedule(base)
    ensures IsSchedule(eff)
  {
    seq(SLOTS, h requires 0 <= h < SLOTS => EffectiveRow(base, shift, pct, h))
  }

  function TotalShift(c: Config, t: Moment): int {
    SeasonalShift(c.seasonal, t.yearCosine) + c.shift
  }

  function EffectiveAt(c: Config, base: Schedule, t: Moment): (eff: Schedule)
    requires IsSchedule(base)
    ensures IsSchedule(eff)
  {
    Effective(base, TotalShift(c, t), AcclimationPercent(c.acclimation, t.unix))
  }

  method EffectiveSchedule(c: Config, base: Schedule, t: Moment) returns (eff: Schedule)
    requires IsSchedule(base)
    ensures eff == EffectiveAt(c, base, t)
  {
    var shift := SeasonalShift(c.seasonal, t.yearCosine) + c.shift;
    var pct := AcclimationPercent(c.acclimation, t.unix);
    eff := [];
    var h := 0;
    while h < SLOTS
      invariant 0 <= h <= SLOTS && |eff| == h
      invariant forall g :: 0 <= g < h ==> eff[g] == EffectiveRow(base, shift, pct, g)
    {
      var row := ResampleRow(base, shift, pct, h);
      eff := eff + [row];
      h := h + 1;
    }
  }

  method ResampleRow(base: Schedule, shift: int, pct: int, h: int) returns (row: Row)
    requires IsSchedule(base) && 0 <= h < SLOTS
    ensures row == EffectiveRow(base, shift, pct, h)
  {
    var sample := WrapMinutes(h * 60 - shift);
    var ch := Interpolate(base, sample / 60, sample % 60);
    ghost var levels := ch[..];
    row := [base[h][0], base[h][1]];
    var i := 0;
    while i < CHANNELS
      invariant 0 <= i <= CHANNELS && ch[..] == levels && |row| == 2 + i
      invariant row[0] == base[h][0] && row[1] == base[h][1]
      invariant forall k :: 0 <= k < i ==> row[2 + k] == Clamp(Percent(levels[k], pct), 0, 100)
    {
      row := row + [Clamp(Round(ch[i] as real * pct as real / 100.0), 0, 100)];
      i := i + 1;
    }
  }

  // ---- overlays ----

  function MasterLevel(v: int, master: int): int {
    if master == 100 then v else Min(Percent(v, master), 100)
  }

  function Mastered(ch: Levels, master: int): (r: Levels)
    ensures |r| == |ch|
  {
    seq(|ch|, i requires 0 <= i < |ch| => MasterLevel(ch[i], master))
  }

  method ApplyMaster(c: Config, ch: array<int>)
    modifies ch
    ensures ch[..] == Mastered(old(ch[..]), c.master)
  {
    if c.master == 100 {
      return;
    }
    var i := 0;
    while i < ch.Length
      invariant 0 <= i <= ch.Length
      invariant forall k :: 0 <= k < i ==> ch[k] == MasterLevel(old(ch[k]), c.master)
      invariant forall k :: i <= k < ch.Length ==> ch[k] == old(ch[k])
    {
      var v := Percent(ch[i], c.master);
      if v > 100 { v := 100; }
      ch[i] := v;
      i := i + 1;
    }
  }

  predicate SiestaActive(c: Config, t: Moment) {
    var s0 := if c.siesta.start < 0 then 13 * 60 else c.siesta.start;
    var s := WrapMinutes(s0 + TotalShift(c, t));
    var dur := Max(c.siesta.duration, 1);
    c.siesta.enabled && InTimeWindow(t.hour * 60 + t.minute, s, WrapMinutes(s + dur))
  }

  function SiestaLevel(v: int, depth: int): int {
    Clamp(Percent(v, 100 - depth), 0, 100)
  }

  function Rested(c: Config, ch: Levels, t: Moment): (r: Levels)
    ensures |r| == |ch|
  {
    var depth := Clamp(c.siesta.intensity, 0, 100);
    if SiestaActive(c, t) && depth != 0
    then seq(|ch|, i requires 0 <= i < |ch| => SiestaLevel(ch[i], depth))
    else ch
  }

  method RestLevels(ch: array<int>, depth: int)
    modifies ch
    ensures forall k :: 0 <= k < ch.Length ==> ch[k] == SiestaLevel(old(ch[k]), depth)
  {
    var factor := 100 - depth;
    var i := 0;
    while i < ch.Length
      invariant 0 <= i <= ch.Length
      invariant forall k :: 0 <= k < i ==> ch[k] == SiestaLevel(old(ch[k]), depth)
      invariant forall k :: i <= k < ch.Length ==> ch[k] == old(ch[k])
    {
      ch[i] := Clamp(Percent(ch[i], factor), 0, 100);
      i := i + 1;
    }
  }

  method ApplySiesta(c: Config, ch: array<int>, t: Moment)
    modifies ch
    ensures ch[..] == Rested(c, old(ch[..]), t)
  {
    if !SiestaActive(c, t) { return; }
    var depth := Clamp(c.siesta.intensity, 0, 100);
    if depth == 0 { return; }
    RestLevels(ch, depth);
  }

  predicate LunarWindowActive(t: Moment) {
    InTimeWindow(t.hour * 60 + t.minute, t.lunarStart, t.lunarEnd)
  }

  /** The day schedule is near dark right now. */
  predicate LunarAllowed(c: Config, eff: Schedule, t: Moment)
    requires IsSchedule(eff) && IsMoment(t)
  {
    forall i :: 0 <= i < CHANNELS ==> Interpolated(eff, t.hour, t.minute)[i] <= Clamp(c.lunar.dayThreshold, 0, 100)
  }

  /** The moonlight in percent; the overlay does nothing when it is not positive. */
  function MoonPercent(c: Config, t: Moment): int {
    Min(Round(Scaled(c.lunar.maxIntensity as real, t.illumination)), 100)
  }

  /** The share of it that the second moonlight channel of the larger lamp gets. */
  function HaloPercent(pct: int): int {
    Min(Round(Scaled(pct as real, 0.7)), 100)
  }

  function Moonlit(c: Config, ch: Levels, t: Moment): (r: Levels)
    requires |ch| == CHANNELS
    ensures |r| == CHANNELS
  {
    var pct := MoonPercent(c, t);
    if pct <= 0 then ch
    else
      var ch1 := ch[1 := Max(pct, ch[1])];
      if c.pro then ch1[4 := Max(HaloPercent(pct), ch1[4])] else ch1
  }

  method ApplyLunar(c: Config, ch: array<int>, t: Moment)
    requires ch.Length == CHANNELS
    modifies ch
    ensures ch[..] == Moonlit(c, old(ch[..]), t)
  {
    var pct := Round(Scaled(c.lunar.maxIntensity as real, t.illumination));
    if pct <= 0 { return; }
    if pct > 100 { pct := 100; }
    if pct > ch[1] { ch[1] := pct; }
    if c.pro {
      var b := Round(Scaled(pct as real, 0.7));
      if b > 100 { b := 100; }
      if b > ch[4] { ch[4] := b; }
    }
  }

  // ---- Compute ----

  datatype Source = Auto | Manual | Moon

  predicate MoonShines(c: Config, base: Schedule, t: Moment)
    requires IsSchedule(base) && IsMoment(t)
  {
    c.lunar.enabled && LunarWindowActive(t) && LunarAllowed(c, EffectiveAt(c, base, t), t)
  }

  /** The automatic output before the moon overlay. */
  function Daylight(c: Config, base: Schedule, t: Moment): (ch: Levels)
    requires IsSchedule(base) && IsMoment(t)
    ensures |ch| == CHANNELS
  {
    Mastered(Rested(c, Interpolated(EffectiveAt(c, base, t), t.hour, t.minute), t), c.master)
  }

  function Computed(c: Config, base: Schedule, t: Moment): (ch: Levels)
    requires IsSchedule(base) && IsMoment(t)
    ensures |ch| == CHANNELS
  {
    if MoonShines(c, base, t) then Moonlit(c, Daylight(c, base, t), t) else Daylight(c, base, t)
  }

  method Compute(c: Config, base: Schedule, manual: Levels, autoMode: bool, t: Moment)
    returns (channels: Levels, source: Source)
    requires IsSchedule(base) && IsMoment(t) && |manual| == CHANNELS
    ensures !autoMode ==> channels == Mastered(manual, c.master) && source == Manual
    ensures autoMode ==>
              channels == Computed(c, base, t) && source == (if MoonShines(c, base, t) then Moon else Auto)
  {
    if !autoMode {
      var ch := new int[CHANNELS](i requires 0 <= i < CHANNELS => manual[i]);
      assert ch[..] == manual;
      ApplyMaster(c, ch);
      return ch[..], Manual;
    }
    var eff := EffectiveSchedule(c, base, t);
    var ch := Interpolate(eff, t.hour, t.minute);
    ApplySiesta(c, ch, t);
    ApplyMaster(c, ch);
    source := Auto;
    if c.lunar.enabled && LunarWindowActive(t) {
      var allowed := LunarScheduleAllows(c, eff, t);
      if allowed {
        ApplyLunar(c, ch, t);
        source := Moon;
      }
    }
    channels := ch[..];
  }

  method LunarScheduleAllows(c: Config, eff: Schedule, t: Moment) returns (allowed: bool)
    requires IsSchedule(eff) && IsMoment(t)
    ensures allowed == LunarAllowed(c, eff, t)
  {
    var ch := Interpolate(eff, t.hour, t.minute);
    var th := Clamp(c.lunar.dayThreshold, 0, 100);
    var i := 0;
    while i < CHANNELS
      invariant 0 <= i <= CHANNELS && ch[..] == Interpolated(eff, t.hour, t.minute)
      invariant forall k :: 0 <= k < i ==> ch[k] <= th
    {
      if ch[i] > th {
        assert Interpolated(eff, t.hour, t.minute)[i] > th;
        return false;
      }
      i := i + 1;
    }
    return true;
  }

  // ---- main results: range ----

  lemma PercentSign(v: int, pct: int)
    requires v >= 0 && pct >= 0
    ensures Percent(v, pct) >= 0
  {
    assert v as real * pct as real >= 0.0;
  }

  lemma RestedInRange(c: Config, ch: Levels, t: Moment)
    requires InRange(ch)
    ensures InRange(Rested(c, ch, t))
  {
  }

  lemma MasteredInRange(ch: Levels, master: int)
    requires InRange(ch) && master >= 0
    ensures InRange(Mastered(ch, master))
  {
    forall i | 0 <= i < |ch| ensures 0 <= MasterLevel(ch[i], master) <= 100 {
      PercentSign(ch[i], master);
    }
  }

  lemma MoonlitInRange(c: Config, ch: Levels, t: Moment)
    requires |ch| == CHANNELS && InRange(ch)
    ensures InRange(Moonlit(c, ch, t))
  {
    var pct := MoonPercent(c, t);
    if pct > 0 {
      RoundMonotone(0.0, Scaled(pct as real, 0.7));
    }
  }

  /** Automatic output stays a percentage, whatever the integers in the schedule are. */
  lemma AutoOutputInRange(c: Config, base: Schedule, t: Moment)
    requires IsSchedule(base) && IsMoment(t) && c.master >= 0
    ensures InRange(Computed(c, base, t))
  {
    var ch := Interpolated(EffectiveAt(c, base, t), t.hour, t.minute);
    RestedInRange(c, ch, t);
    MasteredInRange(Rested(c, ch, t), c.master);
    MoonlitInRange(c, Daylight(c, base, t), t);
  }

  function Flat(v: int): (s: Schedule)
    ensures IsSchedule(s)
    ensures forall h, i :: 0 <= h < SLOTS && 2 <= i < 8 ==> s[h][i] == v
  {
    seq(SLOTS, h => [h, 0, v, v, v, v, v, v])
  }

  function Plain(master: int): Config {
    Config(false, master, 0, Lunar(false, LunarTimes(0, 0, 0, 0, false), 0, 0), Siesta(false, 0, 0, 0),
           Acclimation(false, 0, 0, 0), Seasonal(false, 0))
  }

  lemma BlendOfEqual(v: int, m: int)
    requires 0 <= v <= 100
    ensures Blend(v, v, m) == v
  {
    assert m as real / 60.0 * (v - v) as real == 0.0;
    RoundOfInt(v);
  }

  lemma PercentOfHundred(v: int)
    ensures Percent(v, 100) == v && Percent(100, v) == v
  {
    assert v as real * 100.0 / 100.0 == v as real;
    RoundOfInt(v);
  }

  /** The range holds for every schedule exactly when the master brightness is not negative. */
  lemma RangeNeedsMaster(master: int, t: Moment)
    requires IsMoment(t)
    ensures (forall base :: IsSchedule(base) ==> InRange(Computed(Plain(master), base, t))) <==> master >= 0
  {
    if master >= 0 {
      forall base | IsSchedule(base) ensures InRange(Computed(Plain(master), base, t)) {
        AutoOutputInRange(Plain(master), base, t);
      }
    } else {
      var c, base := Plain(master), Flat(100);
      assert Effective(base, 0, 100) == EffectiveAt(c, base, t);
      forall h, i | 0 <= h < SLOTS && 2 <= i < 8 ensures Effective(base, 0, 100)[h][i] == 100 {
        BlendOfEqual(100, WrapMinutes(h * 60) % 60);
        PercentOfHundred(100);
      }
      BlendOfEqual(100, t.minute);
      PercentOfHundred(master);
      assert Computed(c, base, t)[0] == master;
    }
  }

  // ---- main results: monotonicity ----

  predicate Below(x: Levels, y: Levels) {
    |x| == |y| && forall i :: 0 <= i < |x| ==> x[i] <= y[i]
  }

  /** Pointwise order on the channel columns. */
  predicate Dimmer(x: Schedule, y: Schedule)
    requires IsSchedule(x) && IsSchedule(y)
  {
    forall h, i :: 0 <= h < SLOTS && 2 <= i < 8 ==> x[h][i] <= y[h][i]
  }

  lemma Times(x: real, y: real, f: real)
    requires f >= 0.0 && x <= y
    ensures Scaled(x, f) <= Scaled(y, f)
  {
  }

  lemma MixAsSum(lo: real, hi: real, f: real)
    ensures Mix(lo, hi, f) == Scaled(lo, 1.0 - f) + Scaled(hi, f)
  {
  }

  /** Between the ends the mix grows with either of them. */
  lemma MixMonotone(lo: real, hi: real, lo': real, hi': real, f: real)
    requires lo <= lo' && hi <= hi' && 0.0 <= f <= 1.0
    ensures Mix(lo, hi, f) <= Mix(lo', hi', f)
  {
    MixAsSum(lo, hi, f);
    MixAsSum(lo', hi', f);
    Times(lo, lo', 1.0 - f);
    Times(hi, hi', f);
  }

  lemma BlendMonotone(lo: int, hi: int, lo': int, hi': int, m: int)
    requires lo <= lo' && hi <= hi' && 0 <= m < 60
    ensures Blend(lo, hi, m) <= Blend(lo', hi', m)
  {
    var f := m as real / 60.0;
    MixMonotone(lo as real, hi as real, lo' as real, hi' as real, f);
    RoundMonotone(Mix(lo as real, hi as real, f), Mix(lo' as real, hi' as real, f));
  }

  lemma PercentMonotone(v: int, w: int, pct: int)
    requires v <= w && pct >= 0
    ensures Percent(v, pct) <= Percent(w, pct)
  {
    Times(v as real, w as real, pct as real);
    RoundMonotone(Scaled(v as real, pct as real) / 100.0, Scaled(w as real, pct as real) / 100.0);
  }

  /** Scaling a level by a negative percentage and clamping leaves nothing. */
  lemma NegativePercentClamps(v: int, pct: int)
    requires v >= 0 && pct < 0
    ensures Clamp(Percent(v, pct), 0, 100) == 0
  {
    assert v as real * pct as real <= 0.0;
    RoundMonotone(v as real * pct as real / 100.0, 0.0);
  }

  lemma InterpolatedMonotone(x: Schedule, y: Schedule, h: int, m: int)
    requires IsSchedule(x) && IsSchedule(y) && Dimmer(x, y) && h >= 0 && 0 <= m < 60
    ensures Below(Interpolated(x, h, m), Interpolated(y, h, m))
  {
    forall i | 0 <= i < CHANNELS ensures Interpolated(x, h, m)[i] <= Interpolated(y, h, m)[i] {
      var a, b := h % SLOTS, (h + 1) % SLOTS;
      BlendMonotone(x[a][2 + i], x[b][2 + i], y[a][2 + i], y[b][2 + i], m);
    }
  }

  lemma EffectiveMonotone(x: Schedule, y: Schedule, shift: int, pct: int)
    requires IsSchedule(x) && IsSchedule(y) && Dimmer(x, y)
    ensures Dimmer(Effective(x, shift, pct), Effective(y, shift, pct))
  {
    forall h, i | 0 <= h < SLOTS && 2 <= i < 8
      ensures Effective(x, shift, pct)[h][i] <= Effective(y, shift, pct)[h][i]
    {
      var sample := WrapMinutes(h * 60 - shift);
      InterpolatedMonotone(x, y, sample / 60, sample % 60);
      var v := Interpolated(x, sample / 60, sample % 60)[i - 2];
      var w := Interpolated(y, sample / 60, sample % 60)[i - 2];
      assert v >= 0 && w >= 0;
      if pct >= 0 {
        PercentMonotone(v, w, pct);
      } else {
        NegativePercentClamps(v, pct);
        NegativePercentClamps(w, pct);
      }
    }
  }

  lemma RestedMonotone(c: Config, a: Levels, b: Levels, t: Moment)
    requires Below(a, b)
    ensures Below(Rested(c, a, t), Rested(c, b, t))
  {
    var depth := Clamp(c.siesta.intensity, 0, 100);
    forall i | 0 <= i < |a| ensures Rested(c, a, t)[i] <= Rested(c, b, t)[i] {
      PercentMonotone(a[i], b[i], 100 - depth);
    }
  }

  lemma MasteredMonotone(a: Levels, b: Levels, master: int)
    requires Below(a, b) && master >= 0
    ensures Below(Mastered(a, master), Mastered(b, master))
  {
    forall i | 0 <= i < |a| ensures Mastered(a, master)[i] <= Mastered(b, master)[i] {
      PercentMonotone(a[i], b[i], master);
    }
  }

  /** Before the moon overlay, through both interpolations and all roundings. */
  lemma DaylightBelow(c: Config, x: Schedule, y: Schedule, t: Moment)
    requires IsSchedule(x) && IsSchedule(y) && Dimmer(x, y) && IsMoment(t) && c.master >= 0
    ensures Below(Daylight(c, x, t), Daylight(c, y, t))
  {
    var ex, ey := EffectiveAt(c, x, t), EffectiveAt(c, y, t);
    EffectiveMonotone(x, y, TotalShift(c, t), AcclimationPercent(c.acclimation, t.unix));
    InterpolatedMonotone(ex, ey, t.hour, t.minute);
    var a, b := Interpolated(ex, t.hour, t.minute), Interpolated(ey, t.hour, t.minute);
    RestedMonotone(c, a, b, t);
    MasteredMonotone(Rested(c, a, t), Rested(c, b, t), c.master);
  }

  /**
   Without the moon overlay a brighter schedule never gives a dimmer channel: through both
   interpolations, all roundings, any time shift and any acclimation percentage.
   */
  lemma DaylightMonotone(c: Config, x: Schedule, y: Schedule, t: Moment)
    requires IsSchedule(x) && IsSchedule(y) && Dimmer(x, y) && IsMoment(t)
    requires c.master >= 0 && !c.lunar.enabled
    ensures Below(Computed(c, x, t), Computed(c, y, t))
  {
    DaylightBelow(c, x, y, t);
  }

  // ---- main results: exactly when the moon breaks monotonicity ----

  /** No effective row is brighter than this. */
  function Ceiling(c: Config, t: Moment): (v: int)
    ensures 0 <= v <= 100
  {
    Clamp(AcclimationPercent(c.acclimation, t.unix), 0, 100)
  }

  function Threshold(c: Config): (v: int)
    ensures 0 <= v <= 100
  {
    Clamp(c.lunar.dayThreshold, 0, 100)
  }

  /** Moonlight is due now, and daylight can be bright enough to switch it off. */
  predicate MoonCanGo(c: Config, t: Moment) {
    c.lunar.enabled && LunarWindowActive(t) && MoonPercent(c, t) > 0 && Ceiling(c, t) > Threshold(c)
  }

  ghost predicate Monotone(c: Config, t: Moment)
    requires IsMoment(t)
  {
    forall x, y :: IsSchedule(x) && IsSchedule(y) && Dimmer(x, y) ==> Below(Computed(c, x, t), Computed(c, y, t))
  }

  lemma PercentAtMost(v: int, pct: int)
    requires 0 <= v <= 100
    ensures Clamp(Percent(v, pct), 0, 100) <= Clamp(pct, 0, 100)
  {
    if pct >= 0 {
      PercentMonotone(v, 100, pct);
      PercentOfHundred(pct);
    } else {
      NegativePercentClamps(v, pct);
    }
  }

  lemma BlendAtMost(lo: int, hi: int, m: int, top: int)
    requires lo <= top && hi <= top && 0 <= top <= 100 && 0 <= m < 60
    ensures Blend(lo, hi, m) <= top
  {
    BlendMonotone(lo, hi, top, top, m);
    BlendOfEqual(top, m);
  }

  lemma RowAtMost(c: Config, base: Schedule, t: Moment, h: nat, i: nat)
    requires IsSchedule(base) && h < SLOTS && 2 <= i < 8
    ensures EffectiveAt(c, base, t)[h][i] <= Ceiling(c, t)
  {
    var shift, pct := TotalShift(c, t), AcclimationPercent(c.acclimation, t.unix);
    var sample := WrapMinutes(h * 60 - shift);
    PercentAtMost(Interpolated(base, sample / 60, sample % 60)[i - 2], pct);
  }

  lemma ChannelAtMost(c: Config, base: Schedule, t: Moment, i: nat)
    requires IsSchedule(base) && IsMoment(t) && i < CHANNELS
    ensures Interpolated(EffectiveAt(c, base, t), t.hour, t.minute)[i] <= Ceiling(c, t)
  {
    var eff := EffectiveAt(c, base, t);
    var lo, hi := t.hour % SLOTS, (t.hour + 1) % SLOTS;
    RowAtMost(c, base, t, lo, 2 + i);
    RowAtMost(c, base, t, hi, 2 + i);
    BlendAtMost(eff[lo][2 + i], eff[hi][2 + i], t.minute, Ceiling(c, t));
  }

  lemma EffectiveAtMost(c: Config, base: Schedule, t: Moment)
    requires IsSchedule(base) && IsMoment(t)
    ensures forall i :: 0 <= i < CHANNELS ==>
      Interpolated(EffectiveAt(c, base, t), t.hour, t.minute)[i] <= Ceiling(c, t)
  {
    forall i: nat | i < CHANNELS
      ensures Interpolated(EffectiveAt(c, base, t), t.hour, t.minute)[i] <= Ceiling(c, t)
    {
      ChannelAtMost(c, base, t, i);
    }
  }

  lemma MoonlitMonotone(c: Config, a: Levels, b: Levels, t: Moment)
    requires |a| == CHANNELS && Below(a, b)
    ensures Below(Moonlit(c, a, t), Moonlit(c, b, t))
  {
  }

  /** When daylight cannot switch the moon off, both outputs are moonlit or neither changes. */
  lemma SteadyMoonIsMonotone(c: Config, x: Schedule, y: Schedule, t: Moment)
    requires IsSchedule(x) && IsSchedule(y) && Dimmer(x, y) && IsMoment(t) && c.master >= 0 && !MoonCanGo(c, t)
    ensures Below(Computed(c, x, t), Computed(c, y, t))
  {
    DaylightBelow(c, x, y, t);
    MoonlitMonotone(c, Daylight(c, x, t), Daylight(c, y, t), t);
    if c.lunar.enabled && LunarWindowActive(t) && MoonPercent(c, t) > 0 {
      EffectiveAtMost(c, x, t);
      EffectiveAtMost(c, y, t);
    }
  }

  /** The first channel at full level at all hours, the others dark. */
  function FirstOnly(v: int): (s: Schedule)
    ensures IsSchedule(s)
    ensures forall h, i :: 0 <= h < SLOTS && 2 <= i < 8 ==> s[h][i] == if i == 2 then v else 0
  {
    seq(SLOTS, h => [h, 0, v, 0, 0, 0, 0, 0])
  }

  /** A channel that is the same at all hours is scaled and otherwise kept. */
  lemma SteadyRow(c: Config, base: Schedule, t: Moment, h: nat, i: nat, v: int)
    requires IsSchedule(base) && h < SLOTS && 2 <= i < 8 && (v == 0 || v == 100)
    requires forall g :: 0 <= g < SLOTS ==> base[g][i] == v
    ensures EffectiveAt(c, base, t)[h][i] == if v == 0 then 0 else Ceiling(c, t)
  {
    var sample := WrapMinutes(h * 60 - TotalShift(c, t));
    var pct := AcclimationPercent(c.acclimation, t.unix);
    BlendOfEqual(v, sample % 60);
    assert Interpolated(base, sample / 60, sample % 60)[i - 2] == v;
    PercentOfHundred(pct);
    PercentOfNothing(pct);
  }

  lemma PercentOfNothing(pct: int)
    ensures Percent(0, pct) == 0
  {
    assert Scaled(0 as real, pct as real) == 0.0;
  }

  lemma SteadyChannel(c: Config, base: Schedule, t: Moment, i: nat, v: int)
    requires IsSchedule(base) && IsMoment(t) && i < CHANNELS && (v == 0 || v == 100)
    requires forall g :: 0 <= g < SLOTS ==> base[g][2 + i] == v
    ensures Interpolated(EffectiveAt(c, base, t), t.hour, t.minute)[i] == if v == 0 then 0 else Ceiling(c, t)
  {
    var lo, hi := t.hour % SLOTS, (t.hour + 1) % SLOTS;
    SteadyRow(c, base, t, lo, 2 + i, v);
    SteadyRow(c, base, t, hi, 2 + i, v);
    BlendOfEqual(if v == 0 then 0 else Ceiling(c, t), t.minute);
  }

  /** A dark channel stays dark through siesta and master. */
  lemma DarkChannel(c: Config, base: Schedule, t: Moment, i: nat)
    requires IsSchedule(base) && IsMoment(t) && i < CHANNELS && forall g :: 0 <= g < SLOTS ==> base[g][2 + i] == 0
    ensures Daylight(c, base, t)[i] == 0
  {
    SteadyChannel(c, base, t, i, 0);
    var ch := Interpolated(EffectiveAt(c, base, t), t.hour, t.minute);
    PercentOfNothing(100 - Clamp(c.siesta.intensity, 0, 100));
    assert Rested(c, ch, t)[i] == 0;
    PercentOfNothing(c.master);
  }

  lemma DarkIsMoonlit(c: Config, t: Moment)
    requires IsMoment(t) && MoonCanGo(c, t)
    ensures Computed(c, FirstOnly(0), t)[1] >= MoonPercent(c, t)
  {
    var eff := EffectiveAt(c, FirstOnly(0), t);
    forall i: nat | i < CHANNELS ensures Interpolated(eff, t.hour, t.minute)[i] <= Threshold(c) {
      SteadyChannel(c, FirstOnly(0), t, i, 0);
    }
    assert LunarAllowed(c, eff, t);
  }

  lemma BrightIsNotMoonlit(c: Config, t: Moment)
    requires IsMoment(t) && MoonCanGo(c, t)
    ensures Computed(c, FirstOnly(100), t)[1] == 0
  {
    var eff := EffectiveAt(c, FirstOnly(100), t);
    SteadyChannel(c, FirstOnly(100), t, 0, 100);
    assert Interpolated(eff, t.hour, t.minute)[0] > Threshold(c);
    assert !LunarAllowed(c, eff, t);
    DarkChannel(c, FirstOnly(100), t, 1);
  }

  /**
   A brighter schedule never gives a dimmer channel, for all schedules, exactly when moonlight is not
   due or daylight cannot switch it off. Otherwise full light on one channel takes the moon off another.
   */
  lemma MonotoneExactly(c: Config, t: Moment)
    requires IsMoment(t) && c.master >= 0
    ensures Monotone(c, t) <==> !MoonCanGo(c, t)
  {
    if MoonCanGo(c, t) {
      DarkIsMoonlit(c, t);
      BrightIsNotMoonlit(c, t);
      assert Dimmer(FirstOnly(0), FirstOnly(100));
      assert !Below(Computed(c, FirstOnly(0), t), Computed(c, FirstOnly(100), t));
    } else {
      forall x, y | IsSchedule(x) && IsSchedule(y) && Dimmer(x, y) ensures Below(Computed(c, x, t), Computed(c, y, t)) {
        SteadyMoonIsMonotone(c, x, y, t);
      }
    }
  }

  /** A moon overlay that is on all hour with a day threshold of zero. */
  const FULL_MOON: Config := Plain(100).(lunar := Lunar(true, LunarTimes(0, 0, 0, 0, false), 100, 0))

  /** Such a case: full moonlight, and nothing to keep daylight below the threshold. */
  lemma MoonlightIsNotMonotone(t: Moment)
    requires t == Moment(0, 0, 0, 0.0, 1.0, 0, 60)
    ensures MoonCanGo(FULL_MOON, t) && !Monotone(FULL_MOON, t)
  {
    assert Scaled(100.0, 1.0) == 100.0;
    RoundOfInt(100);
    MonotoneExactly(FULL_MOON, t);
  }

  // ---- main results: acclimation ----

  /** The ramp before rounding. */
  function Line(a: Acclimation, x: real): real {
    a.startPercent as real + Scaled(x, (100 - a.startPercent) as real)
  }

  /** The ramp between the first and the last day. */
  function Ramp(a: Acclimation, day: int): int
    requires a.durationDays > 0
  {
    Round(Line(a, day as real / a.durationDays as real))
  }

  lemma DivMonotone(x: real, y: real, n: real)
    requires x <= y && n > 0.0
    ensures x / n <= y / n
  {
    var p, q := x / n, y / n;
    assert p * n == x && q * n == y;
    assert p > q ==> p * n > q * n;
  }

  lemma RampMonotone(a: Acclimation, d: int, e: int)
    requires d <= e && a.durationDays > 0 && a.startPercent < 100
    ensures Ramp(a, d) <= Ramp(a, e)
  {
    var x, y := d as real / a.durationDays as real, e as real / a.durationDays as real;
    DivMonotone(d as real, e as real, a.durationDays as real);
    Times(x, y, (100 - a.startPercent) as real);
    RoundMonotone(Line(a, x), Line(a, y));
  }

  lemma RampStart(a: Acclimation)
    requires a.durationDays > 0
    ensures Ramp(a, 0) == a.startPercent
  {
    assert 0 as real / a.durationDays as real == 0.0;
    RoundOfInt(a.startPercent);
  }

  /** The acclimation percentage never falls as time passes, and never exceeds a hundred. */
  lemma AcclimationNeverFalls(a: Acclimation, now: int, later: int)
    requires now <= later
    ensures AcclimationPercent(a, now) <= AcclimationPercent(a, later) <= 100
  {
    var d, e := Quot(now - a.startEpoch, 86400), Quot(later - a.startEpoch, 86400);
    if a.enabled && a.startPercent < 100 && a.durationDays > 0 && a.startEpoch != 0 && 0 < e < a.durationDays {
      RampStart(a);
      RampMonotone(a, 0, e);
      RampMonotone(a, if d > 0 then d else 0, e);
      AcclimationIsRamp(a, later);
      AcclimationIsRamp(a, now);
    }
  }

  lemma AcclimationIsRamp(a: Acclimation, unix: int)
    requires a.enabled && a.startPercent < 100 && a.durationDays > 0 && a.startEpoch != 0
    ensures var d := Quot(unix - a.startEpoch, 86400);
            AcclimationPercent(a, unix) ==
            (if d <= 0 then a.startPercent else if d >= a.durationDays then 100 else Clamp(Ramp(a, d), 1, 100))
  {
  }
}
