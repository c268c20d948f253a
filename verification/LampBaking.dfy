/**
 Rotating the rows of a push and then baking the effects into them, against showing the shifted
 schedule live.
 */
module LampBaking {
  import opened LampWindows
  import opened LampModel
  import opened LampPush
  import opened LampIntegers

  lemma ForthAgain(h: nat, k: int)
    requires h < 24
    ensures ((h - k) % 24 + k) % 24 == h
  {
    ModPlus(h - k, k);
  }

  lemma RotatedChannelFrom(base: Schedule, k: int, src: nat, h: nat, i: nat)
    requires IsSchedule(base) && src < 24 && h == (src + k) % 24 && i < CHANNELS
    ensures |Rotated(base, 60 * k)[h]| == 8 && Rotated(base, 60 * k)[h][2 + i] == base[src][2 + i]
  {
    RowsMoveLater(base, k, src);
  }

  lemma RotatedChannel(base: Schedule, k: int, h: nat, i: nat)
    requires IsSchedule(base) && h < 24 && i < CHANNELS
    ensures |Rotated(base, 60 * k)[h]| == 8 && Rotated(base, 60 * k)[h][2 + i] == base[(h - k) % 24][2 + i]
  {
    ForthAgain(h, k);
    RotatedChannelFrom(base, k, (h - k) % 24, h, i);
  }

  lemma RotatedIsSchedule(base: Schedule, k: int)
    requires IsSchedule(base)
    ensures IsSchedule(Rotated(base, 60 * k))
  {
    forall h: nat | h < SLOTS ensures |Rotated(base, 60 * k)[h]| == 2 + CHANNELS {
      RotatedChannel(base, k, h, 0);
    }
  }

  lemma SameNeighbours(a: Schedule, b: Schedule, h: nat, g: nat, m: int, i: nat)
    requires IsSchedule(a) && IsSchedule(b) && i < CHANNELS
    requires a[h % SLOTS][2 + i] == b[g % SLOTS][2 + i] && a[(h + 1) % SLOTS][2 + i] == b[(g + 1) % SLOTS][2 + i]
    ensures Interpolated(a, h, m)[i] == Interpolated(b, g, m)[i]
  {
  }

  lemma ChannelOfRotated(base: Schedule, k: int, h: nat, g: nat, m: int, i: nat)
    requires IsSchedule(base) && IsSchedule(Rotated(base, 60 * k)) && h < 24 && g == (h - k) % 24 && i < CHANNELS
    ensures Interpolated(Rotated(base, 60 * k), h, m)[i] == Interpolated(base, g, m)[i]
  {
    NextHour(h, k);
    RotatedChannel(base, k, h, i);
    RotatedChannel(base, k, (h + 1) % 24, i);
    SameNeighbours(Rotated(base, 60 * k), base, h, g, m, i);
  }

  lemma InterpolatedOfRotated(base: Schedule, k: int, h: nat, m: int)
    requires IsSchedule(base) && IsSchedule(Rotated(base, 60 * k)) && h < 24
    ensures Interpolated(Rotated(base, 60 * k), h, m) == Interpolated(base, (h - k) % 24, m)
  {
    var g := (h - k) % 24;
    forall i: nat | i < CHANNELS ensures Interpolated(Rotated(base, 60 * k), h, m)[i] == Interpolated(base, g, m)[i] {
      ChannelOfRotated(base, k, h, g, m, i);
    }
  }

  lemma NextHour(h: nat, k: int)
    requires h < 24
    ensures ((h + 1) % 24 - k) % 24 == ((h - k) % 24 + 1) % 24 && (h - k) % 24 % 24 == (h - k) % 24
  {
    ModPlus(h + 1, -k);
    ModPlus(h - k, 1);
  }

  /** Sampling k hours earlier. */
  lemma EarlierSample(minute: int, k: int)
    ensures var q, p := WrapMinutes(minute), WrapMinutes(minute - 60 * k);
            p % 60 == q % 60 && p / 60 == (q / 60 - k) % 24
  {
    var q := WrapMinutes(minute);
    var hour := (q / 60 - k) % 24;
    var days := minute / DAY_MINUTES + (q / 60 - k) / 24;
    assert minute - 60 * k == hour * 60 + q % 60 + days * DAY_MINUTES;
    WrapShift(hour * 60 + q % 60, days);
  }

  lemma EffectiveOfRotated(base: Schedule, k: int, shift: int, pct: int, h: nat)
    requires IsSchedule(base) && IsSchedule(Rotated(base, 60 * k)) && h < SLOTS
    ensures EffectiveRow(Rotated(base, 60 * k), shift, pct, h)[2..] == EffectiveRow(base, shift + 60 * k, pct, h)[2..]
  {
    var q := WrapMinutes(h * 60 - shift);
    EarlierSample(h * 60 - shift, k);
    InterpolatedOfRotated(base, k, q / 60, q % 60);
  }

  lemma SameChannels(a: Schedule, b: Schedule, h: int, m: int)
    requires IsSchedule(a) && IsSchedule(b) && h >= 0 && forall g :: 0 <= g < SLOTS ==> a[g][2..] == b[g][2..]
    ensures Interpolated(a, h, m) == Interpolated(b, h, m)
  {
    var x, y := Interpolated(a, h, m), Interpolated(b, h, m);
    forall i | 0 <= i < CHANNELS ensures x[i] == y[i] {
      var lo, hi := h % SLOTS, (h + 1) % SLOTS;
      assert a[lo][2 + i] == a[lo][2..][i] == b[lo][2..][i] && a[hi][2 + i] == a[hi][2..][i] == b[hi][2..][i];
    }
  }

  /** The siesta is on, or off, with and without the shift. */
  predicate SiestaUnmoved(c: Config, k: int, t: Moment) {
    SiestaActive(c.(shift := 0), t) == SiestaActive(c.(shift := 60 * k), t)
  }

  lemma EffectiveAtRowOfRotated(c: Config, base: Schedule, k: int, t: Moment, h: nat)
    requires IsSchedule(base) && IsSchedule(Rotated(base, 60 * k)) && h < SLOTS
    ensures EffectiveAt(c.(shift := 0), Rotated(base, 60 * k), t)[h][2..] == EffectiveAt(c.(shift := 60 * k), base, t)[h][2..]
  {
    var season := SeasonalShift(c.seasonal, t.yearCosine);
    assert TotalShift(c.(shift := 60 * k), t) == season + 60 * k && TotalShift(c.(shift := 0), t) == season;
    EffectiveOfRotated(base, k, season, AcclimationPercent(c.acclimation, t.unix), h);
  }

  lemma EffectiveAtOfRotated(c: Config, base: Schedule, k: int, t: Moment)
    requires IsSchedule(base) && IsSchedule(Rotated(base, 60 * k)) && IsMoment(t)
    ensures Interpolated(EffectiveAt(c.(shift := 0), Rotated(base, 60 * k), t), t.hour, t.minute)
         == Interpolated(EffectiveAt(c.(shift := 60 * k), base, t), t.hour, t.minute)
  {
    var a, b := EffectiveAt(c.(shift := 0), Rotated(base, 60 * k), t), EffectiveAt(c.(shift := 60 * k), base, t);
    forall h: nat | h < SLOTS ensures a[h][2..] == b[h][2..] {
      EffectiveAtRowOfRotated(c, base, k, t, h);
    }
    SameChannels(a, b, t.hour, t.minute);
  }

  /**
   Baking the rotated rows gives what the shifted schedule would show live, season, acclimation, siesta,
   master and moon included, whatever shift the configuration holds; only the siesta stays at its hour.
   */
  lemma BakeOfRotated(c: Config, base: Schedule, k: int, hour: nat, t: Moment)
    requires IsSchedule(base) && IsMoment(t) && SiestaUnmoved(c, k, t)
    ensures IsSchedule(Rotated(base, 60 * k))
    ensures BakedRow(c, Rotated(base, 60 * k), hour, t) == [hour, 0] + Computed(c.(shift := 60 * k), base, t)
  {
    RotatedIsSchedule(base, k);
    EffectiveAtOfRotated(c, base, k, t);
  }

  // ---- what the rotation does not move ----

  /** The wall clock at a minute of the day, all else as in t. */
  function At(t: Moment, minute: int): (m: Moment)
    requires InDay(minute)
    ensures IsMoment(m) && 60 * m.hour + m.minute == minute
  {
    t.(hour := minute / 60, minute := minute % 60)
  }

  /** Minutes from the start of the unshifted siesta. */
  function Begin(c: Config, t: Moment): int {
    (if c.siesta.start < 0 then 780 else c.siesta.start) + SeasonalShift(c.seasonal, t.yearCosine)
  }

  lemma SiestaWithShift(c: Config, shift: int, t: Moment)
    requires IsMoment(t) && 0 < c.siesta.duration < 1440
    ensures SiestaActive(c.(shift := shift), t) <==>
      c.siesta.enabled && (60 * t.hour + t.minute - (Begin(c, t) + shift)) % 1440 < c.siesta.duration
  {
    SiestaHours(c.(shift := shift), t);
    assert TotalShift(c.(shift := shift), t) == SeasonalShift(c.seasonal, t.yearCosine) + shift;
  }

  /** Two stretches of the same length that start `apart` minutes apart differ at the start of one or a minute before it. */
  lemma StretchesDiffer(begin: int, apart: int, len: int) returns (minute: int)
    requires 0 < len < 1440 && apart % 1440 != 0
    ensures InDay(minute) && ((minute - begin) % 1440 < len) != ((minute - (begin + apart)) % 1440 < len)
  {
    var away := (0 - apart) % 1440;
    ApartIsAway(apart);
    if away < len {
      minute := WrapMinutes(begin - 1);
      DistanceOf(begin - 1, begin);
      DistanceOf(begin - 1, begin + apart);
      OneLess(apart, away);
    } else {
      minute := WrapMinutes(begin);
      DistanceOf(begin, begin);
      DistanceOf(begin, begin + apart);
    }
  }

  lemma ApartIsAway(apart: int)
    requires apart % 1440 != 0
    ensures (0 - apart) % 1440 >= 1
  {
  }

  lemma OneLess(apart: int, away: int)
    requires away == (0 - apart) % 1440 && away >= 1
    ensures (-1 - apart) % 1440 == away - 1 && (0 - 1) % 1440 == 1439
  {
  }

  lemma DistanceOf(x: int, y: int)
    ensures (WrapMinutes(x) - y) % 1440 == (x - y) % 1440
  {
    DayShift(x - y, -(x / DAY_MINUTES));
  }

  /** So the hypothesis of BakeOfRotated holds at every minute exactly when there is no siesta or the shift is of full days. */
  lemma SiestaUnmovedExactly(c: Config, k: int, t: Moment)
    requires 0 < c.siesta.duration < 1440
    ensures (forall minute :: InDay(minute) ==> SiestaUnmoved(c, k, At(t, minute))) <==> !c.siesta.enabled || k % 24 == 0
  {
    if !c.siesta.enabled || k % 24 == 0 {
      forall minute | InDay(minute) ensures SiestaUnmoved(c, k, At(t, minute)) {
        SiestaWithShift(c, 0, At(t, minute));
        SiestaWithShift(c, 60 * k, At(t, minute));
        if k % 24 == 0 { DayShift(minute - Begin(c, t), -(k / 24)); }
      }
    } else {
      NotFullDays(k);
      var minute := StretchesDiffer(Begin(c, t), 60 * k, c.siesta.duration);
      SiestaWithShift(c, 0, At(t, minute));
      SiestaWithShift(c, 60 * k, At(t, minute));
      assert !SiestaUnmoved(c, k, At(t, minute));
    }
  }

  lemma NotFullDays(k: int)
    requires k % 24 != 0
    ensures 60 * k % 1440 != 0
  {
  }
}
