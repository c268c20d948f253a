/**
 The engine step at the grain of its lock sections and lamp writes: SetLive and SetOverride may come
 between any two of them.
 */
module LampInterleaving {
  import opened Wrappers
  import opened LampModel
  import opened LampDriver

  /** Where the step goroutine is, with the local variables it still needs. */
  datatype Pc =
    | Idle
    | Snapped(tick: Tick, active: bool, out: Levels, ended: bool, wasLive: bool)
    | Marked(tick: Tick, active: bool, out: Levels, ended: bool, wasLive: bool)
    | Rearming(repushOk: bool)
    | Sending(out: Levels, handOk: bool)
    | Recording(out: Levels, handOk: bool)

  datatype Fine = Fine(world: World, pc: Pc)

  datatype Move = Begin(tick: Tick) | Mark | Decide | Rearm | Send | Record
                | SetLive(on: bool) | SetOverride(override: Option<Override>)

  /** One move; a move of the step that is not due changes nothing. */
  function Next(s: Fine, m: Move): Fine {
    var w, e := s.world, s.world.engine;
    match m
    case Begin(t) =>
      if s.pc.Idle? && t.clockSane then
        var active := Active(e.override, t.now);
        s.(pc := Snapped(t, active, Output(e.override, t), e.overrideWas && !active, e.live))
      else s
    case Mark =>
      if s.pc.Snapped? then
        Fine(w.(engine := e.(overrideWas := s.pc.active)),
             Marked(s.pc.tick, s.pc.active, s.pc.out, s.pc.ended, s.pc.wasLive))
      else s
    case Decide =>
      if s.pc.Marked? then
        var e1 := e.(target := s.pc.out);
        if s.pc.ended && !s.pc.wasLive then
          Fine(w.(engine := Dormant(e1, s.pc.out)), Rearming(s.pc.tick.repushOk))
        else if !s.pc.active && !s.pc.wasLive then
          Fine(w.(engine := Dormant(e1, s.pc.out)), Idle)
        else if !s.pc.ended && e.haveSent && s.pc.out == e.lastSent then
          Fine(w.(engine := e1), Idle)
        else
          Fine(w.(engine := e1), Sending(s.pc.out, s.pc.tick.handOk))
      else s
    case Rearm =>
      if s.pc.Rearming? then
        Fine(w.(lamp := if s.pc.repushOk then OwnSchedule else w.lamp, rearms := w.rearms + 1), Idle)
      else s
    case Send =>
      if s.pc.Sending? then
        Fine(w.(lamp := if s.pc.handOk then Hand(ToU8(s.pc.out)) else w.lamp, hands := w.hands + 1),
             Recording(s.pc.out, s.pc.handOk))
      else s
    case Record =>
      if s.pc.Recording? then
        Fine(w.(engine := if s.pc.handOk then Sent(e, s.pc.out) else e.(lastWriteOk := false)), Idle)
      else s
    case SetLive(on) => s.(world := w.(engine := LiveSet(e, on)))
    case SetOverride(o) => s.(world := w.(engine := e.(override := o)))
  }

  function Trace(moves: seq<Move>): Fine {
    if moves == [] then Fine(START, Idle) else Next(Trace(moves[..|moves| - 1]), moves[|moves| - 1])
  }

  /**
   Outside the gap between a successful write and its bookkeeping, what counts as sent is what the
   lamp last accepted; inside it, the lamp shows the value about to be booked.
   */
  ghost predicate Consistent(s: Fine) {
    var e, lamp := s.world.engine, s.world.lamp;
    && (e.haveSent ==> e.sent == e.lastSent)
    && (if s.pc.Recording? && s.pc.handOk then lamp == Hand(ToU8(s.pc.out))
        else e.haveSent ==> lamp == Hand(ToU8(e.lastSent)))
    && (s.pc.Rearming? ==> !e.haveSent)
  }

  /** Whatever the interleaving and whichever writes fail. */
  lemma {:induction false} TracesAreConsistent(moves: seq<Move>)
    ensures Consistent(Trace(moves))
  {
    if moves != [] { TracesAreConsistent(moves[..|moves| - 1]); }
  }

  /** The move finishes a step that decided to drive the lamp to out. */
  predicate FinishesDriving(s: Fine, m: Move, out: Levels) {
    || (m.Decide? && s.pc.Marked? && (s.pc.active || s.pc.wasLive) && !(s.pc.ended && !s.pc.wasLive)
        && s.pc.out == out && Next(s, m).pc.Idle?)
    || (m.Record? && s.pc.Recording? && s.pc.out == out)
  }

  /** After a driving step the lamp shows that step's target, or a write was attempted and failed. */
  lemma DrivingStepShowsTarget(moves: seq<Move>, m: Move, out: Levels)
    requires FinishesDriving(Trace(moves), m, out)
    ensures var s := Trace(moves + [m]);
            s.world.lamp == Hand(ToU8(out)) || (m.Record? && !Trace(moves).pc.handOk && !s.world.engine.lastWriteOk)
  {
    TracesAreConsistent(moves);
    assert (moves + [m])[..|moves|] == moves;
  }

  /** A lamp that does not show the target is written to by every driving step that finds it so. */
  lemma MismatchIsRetried(moves: seq<Move>)
    requires var s := Trace(moves);
             && s.pc.Marked? && (s.pc.active || s.pc.wasLive) && !(s.pc.ended && !s.pc.wasLive)
             && s.world.lamp != Hand(ToU8(s.pc.out))
    ensures Trace(moves + [Decide]).pc == Sending(Trace(moves).pc.out, Trace(moves).pc.tick.handOk)
  {
    TracesAreConsistent(moves);
    assert (moves + [Decide])[..|moves|] == moves;
  }

  /** Without interleaving, the moves of one step compose to the atomic step. */
  lemma UninterruptedStepIsAtomic(w: World, t: Tick)
    requires t.clockSane
    ensures var s := Next(Next(Next(Fine(w, Idle), Begin(t)), Mark), Decide);
            var last := Next(if s.pc.Rearming? then Next(s, Rearm) else Next(s, Send), Record);
            last == Fine(Stepped(w, t), Idle)
  {
  }
}
