/**
 What the engine and the push baking see of the stored state (internal/piapi/piapi.go): the snapshot
 replaces missing settings by their defaults.
 */
module LampSnapshot {
  import opened LampModel
  import opened LampPush
  import opened Wrappers

  datatype StoredSiesta = StoredSiesta(enabled: bool, start: int, durationMins: int, duration: int, intensity: int)

  /** The working state as stored: any integers, rows of any lengths. A blank or unreadable time is -1. */
  datatype Stored = Stored(schedule: seq<seq<int>>, manual: seq<int>, mode: string, master: int, shift: int,
                           siesta: StoredSiesta, lunar: Lunar)

  datatype Effects = Effects(acclimation: Acclimation, seasonal: Seasonal)

  /** A setting that is not positive counts as missing. */
  function Nz(v: int, default: int): int {
    if v > 0 then v else default
  }

  function PaddedLevels(values: seq<int>): (ch: Levels)
    ensures |ch| == CHANNELS
    ensures forall i :: 0 <= i < CHANNELS ==> ch[i] == if i < |values| then values[i] else 0
  {
    seq(CHANNELS, i requires 0 <= i < CHANNELS => if i < |values| then values[i] else 0)
  }

  function SnapshotConfig(pro: bool, st: Stored, fx: Effects): Config {
    Config(pro, Nz(st.master, 100), st.shift,
           st.lunar.(maxIntensity := Nz(st.lunar.maxIntensity, 15)),
           Siesta(st.siesta.enabled, st.siesta.start, Nz(st.siesta.durationMins, st.siesta.duration), st.siesta.intensity),
           fx.acclimation, fx.seasonal)
  }

  /** What the engine reads at the start of every tick. */
  datatype Snapshot = Snapshot(base: Schedule, manual: Levels, autoMode: bool, config: Config)

  function SnapshotOf(pro: bool, st: Stored, fx: Effects): (s: Snapshot)
    ensures IsSchedule(s.base) && |s.manual| == CHANNELS
  {
    Snapshot(Padded(st.schedule), PaddedLevels(st.manual), st.mode != "manual", SnapshotConfig(pro, st, fx))
  }

  method EngineSnapshot(pro: bool, st: Stored, fx: Effects) returns (s: Snapshot)
    ensures s == SnapshotOf(pro, st, fx)
  {
    var base := ScheduleFromRows(st.schedule);
    var manual := FillLevels(st.manual);
    var cfg := Config(pro, Nz(st.master, 100), st.shift, st.lunar, Siesta(st.siesta.enabled, st.siesta.start, 0, 0),
                      fx.acclimation, fx.seasonal);
    cfg := cfg.(siesta := cfg.siesta.(duration := Nz(st.siesta.durationMins, st.siesta.duration),
                                      intensity := st.siesta.intensity));
    cfg := cfg.(lunar := cfg.lunar.(maxIntensity := Nz(st.lunar.maxIntensity, 15)));
    s := Snapshot(base, manual, st.mode != "manual", cfg);
  }

  method FillLevels(values: seq<int>) returns (ch: Levels)
    ensures ch == PaddedLevels(values)
  {
    ch := [0, 0, 0, 0, 0, 0];
    var i := 0;
    while i < CHANNELS && i < |values|
      invariant 0 <= i <= CHANNELS && |ch| == CHANNELS
      invariant forall k :: 0 <= k < CHANNELS ==> ch[k] == if k < i && k < |values| then values[k] else 0
    {
      ch := ch[i := values[i]];
      i := i + 1;
    }
  }

  /**
   A push body: the schedule rows if they parse, and the mode. Without the ramp an automatic push of 24
   rows is padded and baked, and the validation accepts the result, whatever integers the body and the
   stored state hold. Every other body is left alone.
   */
  method PrebakePush(pro: bool, st: Stored, fx: Effects, rampOn: bool, schedule: Option<seq<seq<int>>>, mode: string,
                     manual: seq<int>, clock: seq<Moment>) returns (baked: Option<seq<Row>>)
    requires |clock| == SLOTS && AllMoments(clock)
    ensures baked.Some? <==> !rampOn && schedule.Some? && |schedule.value| == SLOTS && mode != "manual"
    ensures baked.Some? ==>
              baked.value == BakedRows(SnapshotConfig(pro, st, fx), Padded(schedule.value), clock) && Acceptable(baked.value)
  {
    if rampOn { return None; }
    if schedule == None || |schedule.value| != SLOTS { return None; }
    if mode == "manual" { return None; }
    var levels := FillLevels(manual);
    var snap := EngineSnapshot(pro, st, fx);
    var base := ScheduleFromRows(schedule.value);
    var out := PrebakeRows(snap.config, base, levels, clock);
    BakedRowsAreAccepted(snap.config, base, clock);
    return Some(out);
  }

  /** A stored master that is not positive never reaches the computation, so automatic output is a percentage. */
  lemma SnapshotOutputInRange(pro: bool, st: Stored, fx: Effects, t: Moment)
    requires IsMoment(t)
    ensures var s := SnapshotOf(pro, st, fx); s.config.master > 0 && InRange(Computed(s.config, s.base, t))
  {
    var s := SnapshotOf(pro, st, fx);
    AutoOutputInRange(s.config, s.base, t);
  }

  /** A missing master counts as full, a missing intensity as fifteen percent, a missing siesta length as the older field. */
  lemma MissingSettings(pro: bool, st: Stored, fx: Effects)
    ensures st.master <= 0 ==> SnapshotOf(pro, st, fx) == SnapshotOf(pro, st.(master := 100), fx)
    ensures st.lunar.maxIntensity <= 0 ==>
      SnapshotOf(pro, st, fx) == SnapshotOf(pro, st.(lunar := st.lunar.(maxIntensity := 15)), fx)
    ensures st.siesta.durationMins <= 0 < st.siesta.duration ==>
      SnapshotOf(pro, st, fx) == SnapshotOf(pro, st.(siesta := st.siesta.(durationMins := st.siesta.duration)), fx)
  {
  }

  /** Settings that are there reach the computation as they are. */
  lemma PresentSettings(pro: bool, st: Stored, fx: Effects)
    requires st.master > 0 && st.lunar.maxIntensity > 0 && st.siesta.durationMins > 0
    ensures var c := SnapshotOf(pro, st, fx).config;
      && c.master == st.master && c.shift == st.shift && c.lunar == st.lunar && c.pro == pro
      && c.siesta == Siesta(st.siesta.enabled, st.siesta.start, st.siesta.durationMins, st.siesta.intensity)
      && c.acclimation == fx.acclimation && c.seasonal == fx.seasonal
  {
  }
}
