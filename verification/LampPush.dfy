/**
 Schedule rows on their way to the lamp: the hour rotation of a push (internal/piweb), the baking
 of the effects into the rows (internal/piapi) and the validation that accepts them
 (internal/httpapi).
 */
module LampPush {
  import opened GoMath
  import opened LampWindows
  import opened LampModel
  import opened Wrappers

  // ---- validation ----

  datatype PushError = WrongRowCount | ShortRow(hour: nat) | OutOfRange(hour: nat, column: nat) | InvalidTime(hour: nat)

  predicate GoodRow(row: seq<int>) {
    && |row| >= 8
    && (forall i :: 0 <= i < 8 ==> 0 <= row[i] <= 100)
    && row[0] <= 23 && row[1] <= 59
  }

  predicate Acceptable(values: seq<seq<int>>) {
    |values| == SLOTS && forall h :: 0 <= h < SLOTS ==> GoodRow(values[h])
  }

  method NormalizeSchedule(values: seq<seq<int>>) returns (r: Result<Schedule, PushError>)
    ensures r.Ok? <==> Acceptable(values)
    ensures r.Ok? ==> IsSchedule(r.value) && forall h :: 0 <= h < SLOTS ==> r.value[h] == values[h][..8]
    ensures r.Err? && r.error.OutOfRange? ==>
              && r.error.hour < |values| && r.error.column < 8 && |values[r.error.hour]| >= 8
              && !(0 <= values[r.error.hour][r.error.column] <= 100)
  {
    if |values| != SLOTS {
      return Err(WrongRowCount);
    }
    var out: Schedule := [];
    var h := 0;
    while h < SLOTS
      invariant 0 <= h <= SLOTS && |out| == h
      invariant forall g :: 0 <= g < h ==> GoodRow(values[g]) && out[g] == values[g][..8]
    {
      var row := values[h];
      if |row| < 8 {
        return Err(ShortRow(h));
      }
      var outRow := [];
      var i := 0;
      while i < 8
        invariant 0 <= i <= 8 && outRow == row[..i]
        invariant forall k :: 0 <= k < i ==> 0 <= row[k] <= 100
      {
        if row[i] < 0 || row[i] > 100 {
          return Err(OutOfRange(h, i));
        }
        outRow := outRow + [row[i]];
        i := i + 1;
      }
      if outRow[0] > 23 || outRow[1] > 59 {
        return Err(InvalidTime(h));
      }
      out := out + [outRow];
      h := h + 1;
    }
    return Ok(out);
  }

  // ---- baking ----

  /** The configuration used for baking: the rows were already rotated, so the shift is dropped. */
  function Baking(c: Config): Config {
    c.(shift := 0)
  }

  predicate AllMoments(clock: seq<Moment>) {
    forall h :: 0 <= h < |clock| ==> IsMoment(clock[h])
  }

  /** The baked row of one slot at the wall clock of that hour. */
  function BakedRow(c: Config, base: Schedule, hour: nat, at: Moment): Row
    requires IsSchedule(base) && IsMoment(at)
  {
    [hour, 0] + Computed(Baking(c), base, at)
  }

  function BakedRows(c: Config, base: Schedule, clock: seq<Moment>): (rows: seq<Row>)
    requires IsSchedule(base) && AllMoments(clock)
    ensures |rows| == |clock|
    ensures forall h :: 0 <= h < |clock| ==> rows[h] == BakedRow(c, base, h, clock[h])
  {
    seq(|clock|, h requires 0 <= h < |clock| => BakedRow(c, base, h, clock[h]))
  }

  lemma OneMoreRow(rows: seq<Row>, all: seq<Row>, row: Row)
    requires |rows| < |all| && rows == all[..|rows|] && row == all[|rows|]
    ensures rows + [row] == all[..|rows| + 1]
  {
  }

  method PrebakeRows(c: Config, base: Schedule, manual: Levels, clock: seq<Moment>) returns (baked: seq<Row>)
    requires IsSchedule(base) && |manual| == CHANNELS
    requires |clock| == SLOTS && AllMoments(clock)
    ensures baked == BakedRows(c, base, clock)
  {
    baked := [];
    ghost var all := BakedRows(c, base, clock);
    var hh := 0;
    while hh < SLOTS
      invariant 0 <= hh <= SLOTS && |baked| == hh
      invariant baked == all[..hh]
    {
      var row := BakeRow(c, base, manual, hh, clock[hh]);
      OneMoreRow(baked, all, row);
      baked := baked + [row];
      hh := hh + 1;
    }
    assert all[..SLOTS] == all;
  }

  method BakeRow(c: Config, base: Schedule, manual: Levels, hour: nat, at: Moment) returns (row: Row)
    requires IsSchedule(base) && |manual| == CHANNELS && IsMoment(at)
    ensures row == BakedRow(c, base, hour, at)
  {
    var channels, _ := Compute(Baking(c), base, manual, true, at);
    row := FillRow(hour, channels);
  }

  method FillRow(hour: nat, channels: Levels) returns (row: Row)
    requires |channels| == CHANNELS
    ensures row == [hour, 0] + channels
  {
    row := [hour, 0, 0, 0, 0, 0, 0, 0];
    var i := 0;
    while i < CHANNELS
      invariant 0 <= i <= CHANNELS && |row| == 8 && row[0] == hour && row[1] == 0
      invariant forall k :: 0 <= k < i ==> row[2 + k] == channels[k]
    {
      row := row[2 + i := channels[i]];
      i := i + 1;
    }
  }

  /** Cell j of row i of the request body; absent cells are zero. */
  function Cell(rows: seq<seq<int>>, i: nat, j: nat): int {
    if i < |rows| && j < |rows[i]| then rows[i][j] else 0
  }

  function PaddedRow(rows: seq<seq<int>>, i: nat): (row: Row)
    ensures |row| == 8 && forall j :: 0 <= j < 8 ==> row[j] == Cell(rows, i, j)
  {
    seq(8, j requires 0 <= j < 8 => Cell(rows, i, j))
  }

  function Padded(rows: seq<seq<int>>): (s: Schedule)
    ensures IsSchedule(s) && forall i :: 0 <= i < SLOTS ==> s[i] == PaddedRow(rows, i)
  {
    seq(SLOTS, i requires 0 <= i < SLOTS => PaddedRow(rows, i))
  }

  method ScheduleFromRows(rows: seq<seq<int>>) returns (s: Schedule)
    ensures s == Padded(rows)
  {
    s := [];
    for i := 0 to SLOTS
      invariant |s| == i && s == Padded(rows)[..i]
    {
      var row := [0, 0, 0, 0, 0, 0, 0, 0];
      var j := 0;
      while j < 8 && i < |rows| && j < |rows[i]|
        invariant 0 <= j <= 8 && |row| == 8 && (i < |rows| ==> j <= |rows[i]|)
        invariant forall k :: 0 <= k < 8 ==> row[k] == if k < j then Cell(rows, i, k) else 0
      {
        row := row[j := rows[i][j]];
        j := j + 1;
      }
      assert row == PaddedRow(rows, i);
      OneMoreRow(s, Padded(rows), row);
      s := s + [row];
    }
  }

  lemma BakedRowIsGood(c: Config, base: Schedule, hour: nat, at: Moment)
    requires IsSchedule(base) && IsMoment(at) && hour < SLOTS && c.master >= 0
    ensures GoodRow(BakedRow(c, base, hour, at))
  {
    AutoOutputInRange(Baking(c), base, at);
    FrontedIsGood(hour, Computed(Baking(c), base, at));
  }

  lemma FrontedIsGood(hour: nat, ch: Levels)
    requires |ch| == CHANNELS && InRange(ch) && hour < SLOTS
    ensures GoodRow([hour, 0] + ch)
  {
    var row := [hour, 0] + ch;
    forall i | 0 <= i < 8 ensures 0 <= row[i] <= 100 {
      if i >= 2 { assert row[i] == ch[i - 2]; }
    }
  }

  /** Baked rows are always accepted by the validation that follows. */
  lemma BakedRowsAreAccepted(c: Config, base: Schedule, clock: seq<Moment>)
    requires c.master >= 0 && IsSchedule(base) && |clock| == SLOTS && AllMoments(clock)
    ensures Acceptable(BakedRows(c, base, clock))
  {
    forall h | 0 <= h < SLOTS ensures GoodRow(BakedRows(c, base, clock)[h]) {
      BakedRowIsGood(c, base, h, clock[h]);
    }
  }

  // ---- rotation ----

  function Steps(shiftMinutes: int): (steps: nat)
    ensures steps < 24
  {
    Rem(Rem(Quot(shiftMinutes, 60), 24) + 24, 24)
  }

  /** The row that moves to place i. */
  function SourceIndex(i: nat, steps: nat): (src: nat)
    requires steps < 24 && i < 24
    ensures src == (i - steps) % 24
  {
    Rem(i - steps + 24, 24)
  }

  function RotatedRow(rows: seq<seq<int>>, steps: nat, i: nat): seq<int>
    requires |rows| == 24 && steps < 24 && i < 24
  {
    var src := rows[SourceIndex(i, steps)];
    if |src| > 0 then src[0 := i] else src
  }

  /** 24 rows moved by a number of steps; zero steps leave the hour column alone too. */
  function Turned(rows: seq<seq<int>>, steps: nat): (r: seq<seq<int>>)
    requires |rows| == 24 && steps < 24
    ensures |r| == 24
  {
    if steps == 0 then rows else seq(24, i requires 0 <= i < 24 => RotatedRow(rows, steps, i))
  }

  /** A row count other than 24 leaves the rows alone. */
  function Rotated(rows: seq<seq<int>>, shiftMinutes: int): (r: seq<seq<int>>)
    ensures |r| == |rows|
  {
    if |rows| == 24 then Turned(rows, Steps(shiftMinutes)) else rows
  }

  method RotateRow(sched: seq<seq<int>>, steps: nat, i: nat) returns (row: seq<int>)
    requires |sched| == 24 && steps < 24 && i < 24
    ensures row == RotatedRow(sched, steps, i)
  {
    row := sched[SourceIndex(i, steps)];
    if |row| > 0 {
      row := row[0 := i];
    }
  }

  method RewritePush(sched: seq<seq<int>>, shiftMinutes: int) returns (rotated: seq<seq<int>>)
    ensures rotated == Rotated(sched, shiftMinutes)
  {
    var steps := Steps(shiftMinutes);
    if steps == 0 || |sched| != 24 {
      return sched;
    }
    rotated := [];
    var i := 0;
    while i < 24
      invariant 0 <= i <= 24 && |rotated| == i
      invariant forall k :: 0 <= k < i ==> rotated[k] == RotatedRow(sched, steps, k)
    {
      var row := RotateRow(sched, steps, i);
      rotated := rotated + [row];
      i := i + 1;
    }
  }

  /** The steps are the whole hours of the shift, around the day. */
  lemma StepsAreHours(shiftMinutes: int)
    ensures Steps(shiftMinutes) == Quot(shiftMinutes, 60) % 24
  {
  }

  lemma WholeHours(k: int)
    ensures Quot(60 * k, 60) == k && Steps(60 * k) == k % 24
  {
    StepsAreHours(60 * k);
  }

  /** Where the row at place i comes from. */
  function Back(i: int, steps: int): (src: nat)
    ensures src < 24
  {
    (i - steps) % 24
  }

  ghost predicate SameColumns(a: seq<int>, b: seq<int>) {
    |a| == |b| && (a != [] ==> a[1..] == b[1..])
  }

  /** A rotation moves whole rows and only rewrites the hour column. */
  lemma TurnedColumns(rows: seq<seq<int>>, steps: nat, i: nat)
    requires |rows| == 24 && steps < 24 && i < 24
    ensures SameColumns(Turned(rows, steps)[i], rows[Back(i, steps)])
  {
    var src := rows[Back(i, steps)];
    if steps == 0 {
      assert Back(i, steps) == i;
    } else {
      assert Turned(rows, steps)[i] == RotatedRow(rows, steps, i);
      if src != [] { assert src[0 := i][1..] == src[1..]; }
    }
  }

  lemma ModShift(x: int, q: int)
    ensures (x + 24 * q) % 24 == x % 24
  {
    assert (x + 24 * q) / 24 == x / 24 + q;
  }

  lemma ModMinus(x: int, y: int)
    ensures (x - y % 24) % 24 == (x - y) % 24
  {
    ModShift(x - y, y / 24);
  }

  lemma ModPlus(x: int, y: int)
    ensures (x % 24 + y) % 24 == (x + y) % 24
  {
    ModShift(x + y, -(x / 24));
  }

  /** The rows of a double rotation come from as far back as both rotations together. */
  lemma BackTwice(i: int, s: int, t: int)
    ensures Back(Back(i, t), s) == Back(i, s + t)
  {
    ModPlus(i - t, 0 - s);
  }

  lemma BackMeets(i: int, x: int, y: int)
    ensures Back(i, x) == Back(i, y) <==> x % 24 == y % 24
  {
    ModMinus(i, x);
    ModMinus(i, y);
    if Back(i, x) == Back(i, y) {
      ModShift(y, (i - y) / 24 - (i - x) / 24);
    }
  }

  lemma SameColumnsChain(a: seq<int>, b: seq<int>, c: seq<int>)
    requires SameColumns(a, b) && (SameColumns(b, c) || SameColumns(c, b))
    ensures SameColumns(a, c)
  {
  }

  lemma TurnedTwiceColumns(rows: seq<seq<int>>, s: nat, t: nat, i: nat)
    requires |rows| == 24 && s < 24 && t < 24 && i < 24
    ensures SameColumns(Turned(Turned(rows, s), t)[i], rows[Back(i, s + t)])
  {
    var once, j := Turned(rows, s), Back(i, t);
    TurnedColumns(once, t, i);
    TurnedColumns(rows, s, j);
    BackTwice(i, s, t);
    SameColumnsChain(Turned(once, t)[i], once[j], rows[Back(i, s + t)]);
  }

  /** For every body of 24 rows, s and then t steps move the columns as u steps do. */
  ghost predicate StepsCompose(s: nat, t: nat, u: nat)
    requires s < 24 && t < 24 && u < 24
  {
    forall rows, i :: |rows| == 24 && 0 <= i < 24 ==>
      SameColumns(Turned(Turned(rows, s), t)[i], Turned(rows, u)[i])
  }

  lemma TurnsMeet(rows: seq<seq<int>>, s: nat, t: nat, u: nat, i: nat, j: nat)
    requires |rows| == 24 && s < 24 && t < 24 && u < 24 && i < 24 && j == Back(i, s + t) == Back(i, u)
    ensures SameColumns(Turned(Turned(rows, s), t)[i], Turned(rows, u)[i])
  {
    TurnedTwiceColumns(rows, s, t, i);
    TurnedColumns(rows, u, i);
    SameColumnsChain(Turned(Turned(rows, s), t)[i], rows[j], Turned(rows, u)[i]);
  }

  /** Rows that carry their own number. */
  function Numbered(): (rows: seq<seq<int>>)
    ensures |rows| == 24 && forall i :: 0 <= i < 24 ==> rows[i] == [0, i]
  {
    seq(24, i => [0, i])
  }

  lemma NumberedRowsDiffer(j: nat, k: nat)
    requires j < 24 && k < 24 && j != k
    ensures !SameColumns(Numbered()[j], Numbered()[k])
  {
    assert Numbered()[j][1..][0] == j && Numbered()[k][1..][0] == k;
  }

  lemma TurnsDiffer(s: nat, t: nat, u: nat, j: nat, k: nat)
    requires s < 24 && t < 24 && u < 24 && j == Back(0, s + t) && k == Back(0, u) && j != k
    ensures !SameColumns(Turned(Turned(Numbered(), s), t)[0], Turned(Numbered(), u)[0])
  {
    TurnedTwiceColumns(Numbered(), s, t, 0);
    TurnedColumns(Numbered(), u, 0);
    NumberedRowsDiffer(j, k);
  }

  /** Step numbers add up around the day. */
  predicate AddUp(s: nat, t: nat, u: nat) {
    s + t == u || s + t == u + 24
  }

  lemma AddUpModDay(s: nat, t: nat, u: nat)
    requires s < 24 && t < 24 && u < 24
    ensures AddUp(s, t, u) <==> (s + t) % 24 == u
  {
  }

  lemma StepsComposeExactly(s: nat, t: nat, u: nat)
    requires s < 24 && t < 24 && u < 24
    ensures StepsCompose(s, t, u) <==> AddUp(s, t, u)
  {
    AddUpModDay(s, t, u);
    assert u % 24 == u;
    if AddUp(s, t, u) {
      forall rows: seq<seq<int>>, i: nat | |rows| == 24 && i < 24
        ensures SameColumns(Turned(Turned(rows, s), t)[i], Turned(rows, u)[i])
      {
        BackMeets(i, s + t, u);
        TurnsMeet(rows, s, t, u, i, Back(i, u));
      }
    } else {
      BackMeets(0, s + t, u);
      TurnsDiffer(s, t, u, Back(0, s + t), Back(0, u));
    }
  }

  /** The whole hours of two shifts and of their sum differ by one at most. */
  lemma HoursNearlyAdd(a: int, b: int)
    ensures -1 <= Quot(a, 60) + Quot(b, 60) - Quot(a + b, 60) <= 1
  {
  }

  lemma SameHoursModDay(x: int, y: int)
    requires -1 <= x - y <= 1
    ensures x % 24 == y % 24 <==> x == y
  {
  }

  lemma HoursAdd(p: int, q: int, r: int, s: nat, t: nat, u: nat)
    requires -1 <= p + q - r <= 1 && s == p % 24 && t == q % 24 && u == r % 24
    ensures AddUp(s, t, u) <==> p + q == r
  {
    ModsAdd(p, q);
    SameHoursModDay(p + q, r);
    AddUpModDay(s, t, u);
  }

  lemma ModsAdd(p: int, q: int)
    ensures (p % 24 + q % 24) % 24 == (p + q) % 24
  {
    ModPlus(p, q % 24);
    ModPlus(q, p);
  }

  /** For every body of 24 rows, rotating twice moves the columns as rotating once by the sum does. */
  ghost predicate Composes(a: int, b: int) {
    forall rows, i :: |rows| == 24 && 0 <= i < 24 ==>
      SameColumns(Rotated(Rotated(rows, a), b)[i], Rotated(rows, a + b)[i])
  }

  /** Rotations add up exactly when the whole hours of the shifts do: each rotation truncates on its own. */
  lemma ComposeExactly(a: int, b: int)
    ensures Composes(a, b) <==> Quot(a, 60) + Quot(b, 60) == Quot(a + b, 60)
  {
    StepsAreHours(a);
    StepsAreHours(b);
    StepsAreHours(a + b);
    HoursNearlyAdd(a, b);
    StepsComposeByHours(Quot(a, 60), Quot(b, 60), Quot(a + b, 60), Steps(a), Steps(b), Steps(a + b));
    ComposesBySteps(a, b, Steps(a), Steps(b), Steps(a + b));
  }

  lemma StepsComposeByHours(p: int, q: int, r: int, s: nat, t: nat, u: nat)
    requires -1 <= p + q - r <= 1 && s == p % 24 && t == q % 24 && u == r % 24
    ensures StepsCompose(s, t, u) <==> p + q == r
  {
    StepsComposeExactly(s, t, u);
    HoursAdd(p, q, r, s, t, u);
  }

  lemma ComposesBySteps(a: int, b: int, s: nat, t: nat, u: nat)
    requires s == Steps(a) && t == Steps(b) && u == Steps(a + b)
    ensures Composes(a, b) <==> StepsCompose(s, t, u)
  {
    if Composes(a, b) {
      forall rows: seq<seq<int>>, i: nat | |rows| == 24 && i < 24
        ensures SameColumns(Turned(Turned(rows, s), t)[i], Turned(rows, u)[i])
      {
        assert SameColumns(Rotated(Rotated(rows, a), b)[i], Rotated(rows, a + b)[i]);
      }
    }
  }

  /** So all whole-hour rotations add up, and two rotations by ninety minutes are not one by three hours. */
  lemma RotationsCompose(a: int, b: int)
    ensures Composes(60 * a, 60 * b) && !Composes(90, 90)
  {
    WholeHours(a);
    WholeHours(b);
    WholeHours(a + b);
    ComposeExactly(60 * a, 60 * b);
    ComposeExactly(90, 90);
  }

  // ---- what a rotation sends ----

  /** A shift of k hours moves the row of an hour to k hours later, with everything in it but the hour itself. */
  lemma RowsMoveLater(rows: seq<seq<int>>, k: int, h: nat)
    requires |rows| == 24 && h < 24
    ensures var moved := Rotated(rows, 60 * k)[(h + k) % 24];
            |moved| == |rows[h]| && (forall j :: 1 <= j < |moved| ==> moved[j] == rows[h][j])
  {
    var i := (h + k) % 24;
    WholeHours(k);
    BackTo(h, k);
    TurnedColumns(rows, Steps(60 * k), i);
    ColumnsAgree(Rotated(rows, 60 * k)[i], rows[h]);
  }

  lemma BackTo(h: nat, k: int)
    requires h < 24
    ensures Back((h + k) % 24, k % 24) == h
  {
    ModMinus((h + k) % 24, k);
    ModPlus(h + k, -k);
  }

  lemma ColumnsAgree(a: seq<int>, b: seq<int>)
    requires SameColumns(a, b)
    ensures |a| == |b| && forall j :: 1 <= j < |a| ==> a[j] == b[j]
  {
    forall j | 1 <= j < |a| ensures a[j] == b[j] {
      assert a[1..][j - 1] == b[1..][j - 1];
    }
  }

  /** And the hour is that of the new place, unless the shift has no whole hour beyond full days. */
  lemma RotatedHours(rows: seq<seq<int>>, shiftMinutes: int, i: nat)
    requires |rows| == 24 && i < 24 && Quot(shiftMinutes, 60) % 24 != 0
    ensures var row := Rotated(rows, shiftMinutes)[i]; row == [] || row[0] == i
  {
    StepsAreHours(shiftMinutes);
    assert Rotated(rows, shiftMinutes)[i] == RotatedRow(rows, Steps(shiftMinutes), i);
  }

  lemma UnrotatedRows(rows: seq<seq<int>>, shiftMinutes: int)
    requires Quot(shiftMinutes, 60) % 24 == 0
    ensures Rotated(rows, shiftMinutes) == rows
  {
    StepsAreHours(shiftMinutes);
  }

  /** Every row that has an hour has that of its place. */
  predicate HoursInOrder(rows: seq<seq<int>>) {
    |rows| == 24 && forall i :: 0 <= i < 24 ==> rows[i] == [] || rows[i][0] == i
  }

  function RotatedBy(rows: seq<seq<int>>, shifts: seq<int>): seq<seq<int>> {
    if shifts == [] then rows else Rotated(RotatedBy(rows, shifts[..|shifts| - 1]), shifts[|shifts| - 1])
  }

  /** Rows that start as hours 0 to 23 are hours 0 to 23 after any rotations. */
  lemma {:induction false} RotationsKeepHours(rows: seq<seq<int>>, shifts: seq<int>)
    requires HoursInOrder(rows)
    ensures HoursInOrder(RotatedBy(rows, shifts))
  {
    if shifts != [] {
      var before, shift := RotatedBy(rows, shifts[..|shifts| - 1]), shifts[|shifts| - 1];
      RotationsKeepHours(rows, shifts[..|shifts| - 1]);
      if Quot(shift, 60) % 24 == 0 {
        UnrotatedRows(before, shift);
      } else {
        forall i: nat | i < 24 ensures Rotated(before, shift)[i] == [] || Rotated(before, shift)[i][0] == i {
          RotatedHours(before, shift, i);
        }
      }
    }
  }

  /** All channel levels are percentages. */
  predicate Percentages(s: Schedule)
    requires IsSchedule(s)
  {
    forall h, i :: 0 <= h < SLOTS && 2 <= i < 8 ==> 0 <= s[h][i] <= 100
  }

  /**
   For every whole-hour shift, rotating the rows gives the channel columns that resampling the
   schedule by that shift gives, without seasonal shift or acclimation.
   */
  lemma RotationIsResampling(base: Schedule, k: int, h: nat)
    requires IsSchedule(base) && Percentages(base) && h < SLOTS
    ensures Effective(base, 60 * k, 100)[h] == EffectiveRow(base, 60 * k, 100, h)
    ensures Rotated(base, 60 * k)[h][2..] == EffectiveRow(base, 60 * k, 100, h)[2..]
  {
    var shift, src := 60 * k, Back(h, Steps(60 * k));
    SampleHour(h, k);
    RotatedTail(base, shift, h);
    SameTail(base, shift, h, src, Rotated(base, shift)[h]);
  }

  lemma SameTail(base: Schedule, shift: int, h: nat, src: nat, rotated: seq<int>)
    requires IsSchedule(base) && Percentages(base) && h < SLOTS && src < SLOTS
    requires WrapMinutes(h * 60 - shift) == src * 60
    requires |rotated| == 8 && rotated[2..] == base[src][2..]
    ensures rotated[2..] == EffectiveRow(base, shift, 100, h)[2..]
  {
    EffectiveAtHour(base, shift, h, src);
  }

  lemma RotatedTail(base: Schedule, shift: int, h: nat)
    requires IsSchedule(base) && h < SLOTS
    ensures |Rotated(base, shift)[h]| == 8 && Rotated(base, shift)[h][2..] == base[Back(h, Steps(shift))][2..]
  {
    TurnedColumns(base, Steps(shift), h);
    TailOfTail(Rotated(base, shift)[h], base[Back(h, Steps(shift))]);
  }

  lemma TailOfTail(a: seq<int>, b: seq<int>)
    requires |a| == |b| >= 2 && a[1..] == b[1..]
    ensures a[2..] == b[2..]
  {
    assert a[2..] == a[1..][1..] && b[2..] == b[1..][1..];
  }

  lemma WholeHour(sample: int, src: nat)
    requires sample == src * 60
    ensures sample / 60 == src && sample % 60 == 0
  {
  }

  lemma EffectiveAtHour(base: Schedule, shift: int, h: nat, src: nat)
    requires IsSchedule(base) && Percentages(base) && h < SLOTS && src < SLOTS
    requires WrapMinutes(h * 60 - shift) == src * 60
    ensures EffectiveRow(base, shift, 100, h)[2..] == base[src][2..]
  {
    var row := EffectiveRow(base, shift, 100, h);
    WholeHour(WrapMinutes(h * 60 - shift), src);
    forall i: nat | 2 <= i < 8 ensures row[i] == base[src][i] {
      ColumnAtHour(base, src, i);
    }
    SameFrom(row, base[src]);
  }

  lemma SameFrom(a: seq<int>, b: seq<int>)
    requires |a| == |b| == 8 && forall i: nat :: 2 <= i < 8 ==> a[i] == b[i]
    ensures a[2..] == b[2..]
  {
  }

  lemma ColumnAtHour(base: Schedule, src: nat, i: nat)
    requires IsSchedule(base) && Percentages(base) && src < SLOTS && 2 <= i < 8
    ensures Clamp(Percent(Interpolated(base, src, 0)[i - 2], 100), 0, 100) == base[src][i]
  {
    BlendAtHour(base[src][i], base[(src + 1) % SLOTS][i]);
    PercentOfHundred(base[src][i]);
  }

  lemma SourceOfHours(i: int, k: int)
    ensures Back(i, Steps(60 * k)) == (i - k % 24) % 24
  {
    WholeHours(k);
  }

  lemma SampleHour(h: nat, k: int)
    requires h < SLOTS
    ensures WrapMinutes(h * 60 - 60 * k) == Back(h, Steps(60 * k)) * 60
  {
    SourceOfHours(h, k);
    var src := (h - k % 24) % 24;
    var days := (h - k % 24) / 24 - k / 24;
    assert h - k == src + 24 * days;
    WrapShift(src * 60, days);
  }

  lemma BlendAtHour(lo: int, hi: int)
    requires 0 <= lo <= 100
    ensures Blend(lo, hi, 0) == lo
  {
    assert 0 as real / 60.0 * (hi - lo) as real == 0.0;
    RoundOfInt(lo);
  }
}
