/**
 Who drives the lamp (internal/engine/engine.go) and the actions around it
 (internal/piapi/effects.go): live driving while the smooth ramp is on, timed overrides, and the
 lamp's own pushed schedule otherwise.
 */
module LampDriver {
  import opened Wrappers
  import opened GoMath
  import opened LampModel

  /** A timed full-output replacement. */
  datatype Override = Override(channels: Levels, until: int)

  /** What the lamp shows: its own pushed schedule, or the last hand value it accepted. */
  datatype Shown = OwnSchedule | Hand(levels: Levels)

  datatype State = State(override: Option<Override>, overrideWas: bool, live: bool,
                         haveSent: bool, lastSent: Levels, target: Levels, sent: Levels, lastWriteOk: bool)

  /** The engine, the lamp, and how many hand writes and re-arms were attempted. */
  datatype World = World(engine: State, lamp: Shown, hands: nat, rearms: nat)

  const DARK: Levels := [0, 0, 0, 0, 0, 0]

  const START: World := World(State(None, false, false, false, DARK, DARK, DARK, false), OwnSchedule, 0, 0)

  /** One tick: the clock, what Compute gives without override, and which writes succeed. */
  datatype Tick = Tick(now: int, clockSane: bool, computed: Levels, handOk: bool, repushOk: bool)

  function ToU8(ch: Levels): (r: Levels)
    ensures |r| == |ch|
    ensures InRange(ch) ==> r == ch
  {
    seq(|ch|, i requires 0 <= i < |ch| => Clamp(ch[i], 0, 255))
  }

  predicate Active(o: Option<Override>, now: int) {
    o.Some? && now < o.value.until
  }

  function Output(o: Option<Override>, t: Tick): Levels {
    if Active(o, t.now) then o.value.channels else t.computed
  }

  /** A dormant tick reports the computed target as shown and forgets what was sent. */
  function Dormant(e: State, out: Levels): State {
    e.(sent := out, lastWriteOk := true, haveSent := false)
  }

  function Sent(e: State, out: Levels): State {
    e.(lastWriteOk := true, sent := out, lastSent := out, haveSent := true)
  }

  function Stepped(w: World, t: Tick): World {
    if !t.clockSane then w
    else
      var e := w.engine;
      var active := Active(e.override, t.now);
      var out := Output(e.override, t);
      var ended := e.overrideWas && !active;
      var e1 := e.(overrideWas := active, target := out);
      if ended && !e.live then
        World(Dormant(e1, out), if t.repushOk then OwnSchedule else w.lamp, w.hands, w.rearms + 1)
      else if !active && !e.live then
        w.(engine := Dormant(e1, out))
      else if !ended && e.haveSent && out == e.lastSent then
        w.(engine := e1)
      else if t.handOk then
        World(Sent(e1, out), Hand(ToU8(out)), w.hands + 1, w.rearms)
      else
        World(e1.(lastWriteOk := false), w.lamp, w.hands + 1, w.rearms)
  }

  function LiveSet(e: State, on: bool): State {
    if e.live != on then e.(live := on, haveSent := false) else e
  }

  /** The connection to the lamp; a write that fails leaves the lamp as it was. */
  class LampPort {
    var shown: Shown
    var hands: nat
    var rearms: nat

    constructor ()
      ensures shown == OwnSchedule && hands == 0 && rearms == 0
    {
      shown, hands, rearms := OwnSchedule, 0, 0;
    }

    method WriteHand(levels: Levels, succeeds: bool) returns (ok: bool)
      modifies this
      ensures ok == succeeds && hands == old(hands) + 1 && rearms == old(rearms)
      ensures shown == if ok then Hand(levels) else old(shown)
    {
      hands := hands + 1;
      ok := succeeds;
      if ok { shown := Hand(levels); }
    }

    method PushSchedule(succeeds: bool) returns (ok: bool)
      modifies `shown
      ensures ok == succeeds
      ensures shown == if ok then OwnSchedule else old(shown)
    {
      ok := succeeds;
      if ok { shown := OwnSchedule; }
    }

    method Repush(succeeds: bool) returns (ok: bool)
      modifies this
      ensures ok == succeeds && hands == old(hands) && rearms == old(rearms) + 1
      ensures shown == if ok then OwnSchedule else old(shown)
    {
      rearms := rearms + 1;
      ok := PushSchedule(succeeds);
    }
  }

  class Engine {
    const lamp: LampPort
    var override: Option<Override>
    var overrideWas: bool
    var live: bool
    var haveSent: bool
    var lastSent: Levels
    var target: Levels
    var sent: Levels
    var lastWriteOk: bool

    function View(): World
      reads this, lamp
    {
      World(State(override, overrideWas, live, haveSent, lastSent, target, sent, lastWriteOk),
            lamp.shown, lamp.hands, lamp.rearms)
    }

    constructor (l: LampPort)
      requires l.shown == OwnSchedule && l.hands == 0 && l.rearms == 0
      ensures lamp == l && View() == START
    {
      lamp := l;
      override, overrideWas, live, haveSent := None, false, false, false;
      lastSent, target, sent, lastWriteOk := DARK, DARK, DARK, false;
    }

    method SetLive(on: bool)
      modifies this
      ensures View() == old(View()).(engine := LiveSet(old(View()).engine, on))
    {
      var changed := live != on;
      live := on;
      if changed { haveSent := false; }
    }

    method SetOverride(o: Option<Override>)
      modifies `override
      ensures View() == old(View()).(engine := old(View()).engine.(override := o))
    {
      override := o;
    }

    method Step(t: Tick)
      modifies this, lamp
      ensures View() == Stepped(old(View()), t)
    {
      if !t.clockSane { return; }
      var ov, wasLive, wasOverride := override, live, overrideWas;
      var overrideActive := ov.Some? && t.now < ov.value.until;
      var out := if overrideActive then ov.value.channels else t.computed;
      var justEnded := wasOverride && !overrideActive;
      overrideWas := overrideActive;
      target := out;
      if justEnded && !wasLive {
        sent := out;
        lastWriteOk := true;
        haveSent := false;
        var _ := lamp.Repush(t.repushOk);
        return;
      }
      var drive := overrideActive || wasLive;
      if !drive {
        sent := out;
        lastWriteOk := true;
        haveSent := false;
        return;
      }
      var changed := justEnded || !haveSent || out != lastSent;
      if !changed { return; }
      var ok := lamp.WriteHand(ToU8(out), t.handOk);
      lastWriteOk := ok;
      if ok {
        sent := out;
        lastSent := out;
        haveSent := true;
      }
    }

    /** Smooth ramp on: the engine becomes the live driver. */
    method RampStart()
      modifies this
      ensures View() == Performed(old(View()), Start)
    {
      SetLive(true);
    }

    /** Smooth ramp off: the lamp gets its own schedule back, whether or not the ramp was on. */
    method RampStop(republishOk: bool)
      modifies this, lamp
      ensures View() == Performed(old(View()), Stop(republishOk))
    {
      SetLive(false);
      var _ := lamp.PushSchedule(republishOk);
    }
  }

  // ---- runs of atomic actions ----

  datatype Action = Step(tick: Tick) | Replace(override: Option<Override>) | Start | Stop(republishOk: bool)

  function Performed(w: World, a: Action): World {
    match a
    case Step(t) => Stepped(w, t)
    case Replace(o) => w.(engine := w.engine.(override := o))
    case Start => w.(engine := LiveSet(w.engine, true))
    case Stop(ok) => w.(engine := LiveSet(w.engine, false), lamp := if ok then OwnSchedule else w.lamp)
  }

  function Run(acts: seq<Action>): World {
    if acts == [] then START else Performed(Run(acts[..|acts| - 1]), acts[|acts| - 1])
  }

  /** Schedule pushes succeed; a hand write may fail. */
  predicate PushesSucceed(a: Action) {
    match a
    case Step(t) => t.repushOk
    case Stop(ok) => ok
    case _ => true
  }

  /** The action is a tick that finds no active override and the engine not live. */
  predicate FindsDormant(w: World, a: Action) {
    a.Step? && a.tick.clockSane && !Active(w.engine.override, a.tick.now) && !w.engine.live
  }

  /** The action is a tick that finds an active override or the engine live. */
  predicate FindsDriving(w: World, a: Action) {
    a.Step? && a.tick.clockSane && (Active(w.engine.override, a.tick.now) || w.engine.live)
  }

  /** A hand value is on the lamp only while the engine is live or an override was just active. */
  lemma {:induction false} HandValueIsAccountedFor(acts: seq<Action>)
    requires forall i :: 0 <= i < |acts| ==> PushesSucceed(acts[i])
    ensures var w := Run(acts); w.lamp.Hand? ==> w.engine.live || w.engine.overrideWas
  {
    if acts != [] {
      HandValueIsAccountedFor(acts[..|acts| - 1]);
      assert PushesSucceed(acts[|acts| - 1]);
    }
  }

  /**
   In every run whose schedule pushes succeed, after every tick that finds no active override and the engine
   not live, the lamp runs its own schedule and not a leftover hand value.
   */
  lemma DormantLampRunsItself(acts: seq<Action>, a: Action)
    requires forall i :: 0 <= i < |acts| ==> PushesSucceed(acts[i])
    requires PushesSucceed(a) && FindsDormant(Run(acts), a)
    ensures Run(acts + [a]).lamp == OwnSchedule
  {
    HandValueIsAccountedFor(acts);
    assert (acts + [a])[..|acts|] == acts;
  }

  function SteppedAll(w: World, ts: seq<Tick>): World {
    if ts == [] then w else Stepped(SteppedAll(w, ts[..|ts| - 1]), ts[|ts| - 1])
  }

  /**
   The tick that finds the override ended decides for all later dormant ticks: the lamp is on its own
   schedule exactly when that one re-arm succeeded or the lamp was there already.
   */
  lemma {:induction false} RearmDecides(w: World, t: Tick, later: seq<Tick>)
    requires w.engine.overrideWas && FindsDormant(w, Step(t))
    requires forall i :: 0 <= i < |later| ==> FindsDormant(w, Step(later[i]))
    ensures var end := SteppedAll(Stepped(w, t), later);
            && (end.lamp == OwnSchedule <==> t.repushOk || w.lamp == OwnSchedule)
            && (end.lamp == w.lamp || t.repushOk)
            && end.rearms == w.rearms + 1 && end.hands == w.hands
            && end.engine.override == w.engine.override && !end.engine.live && !end.engine.overrideWas
    decreases |later|
  {
    if later != [] {
      RearmDecides(w, t, later[..|later| - 1]);
      assert FindsDormant(w, Step(later[|later| - 1]));
    }
  }

  lemma RunOfThree(a: Action, b: Action, c: Action)
    ensures Run([a, b]) == Performed(Performed(START, a), b)
    ensures Run([a, b, c]) == Performed(Run([a, b]), c)
  {
    assert [a, b, c][..2] == [a, b] && [a, b][..1] == [a] && [a][..0] == [];
    assert Run([a]) == Performed(START, a);
  }

  lemma RunOfFour(a: Action, b: Action, c: Action, d: Action)
    ensures Run([a, b]) == Performed(Performed(START, a), b)
    ensures Run([a, b, c, d]) == Performed(Performed(Run([a, b]), c), d)
  {
    RunOfThree(a, b, c);
    assert [a, b, c, d][..3] == [a, b, c];
  }

  /**
   It can fail in a run from the start: an override is shown, replaced by none, and the re-arm fails.
   Then the hand value stays on the lamp for as long as nothing else happens, and no re-arm follows.
   */
  lemma {:induction false} FailedRearmIsFinal(o: Override, shown: Tick, failing: Tick, later: seq<Tick>)
    requires shown.clockSane && shown.now < o.until && shown.handOk
    requires failing.clockSane && !failing.repushOk
    requires forall i :: 0 <= i < |later| ==> later[i].clockSane
    ensures var w := Run([Replace(Some(o)), Step(shown), Replace(None), Step(failing)]);
            var end := SteppedAll(w, later);
            end.lamp == Hand(ToU8(o.channels)) && end.rearms == 1
  {
    RunOfFour(Replace(Some(o)), Step(shown), Replace(None), Step(failing));
    var w := Performed(Run([Replace(Some(o)), Step(shown)]), Replace(None));
    RearmDecides(w, failing, later);
  }

  // ---- what a tick reports ----

  /** Without a sane clock a tick does nothing at all. */
  lemma InsaneClockIsIdle(w: World, t: Tick)
    requires !t.clockSane
    ensures Stepped(w, t) == w
  {
  }

  /**
   The status names the target of every tick. A dormant tick reports it as shown and forgets what was
   sent; a write reports how it went, and what was sent when it went well.
   */
  lemma TickReports(w: World, t: Tick)
    requires t.clockSane
    ensures var v := Stepped(w, t);
            && v.engine.target == Output(w.engine.override, t)
            && (FindsDormant(w, Step(t)) ==>
                  v.engine.sent == v.engine.target && v.engine.lastWriteOk && !v.engine.haveSent && v.hands == w.hands)
            && (v.hands != w.hands ==>
                  && FindsDriving(w, Step(t)) && v.hands == w.hands + 1 && v.engine.lastWriteOk == t.handOk
                  && if t.handOk then v.engine.sent == v.engine.lastSent == v.engine.target && v.engine.haveSent
                     else v.engine.sent == w.engine.sent && v.engine.lastSent == w.engine.lastSent)
  {
  }

  // ---- when an override is in force ----

  function Overriding(w: World, o: Option<Override>): World {
    w.(engine := w.engine.(override := o))
  }

  /** An override whose time is up is to every tick as if it were not there. */
  lemma ExpiredTick(w: World, o: Override, t: Tick)
    requires o.until <= t.now
    ensures Stepped(Overriding(w, Some(o)), t) == Overriding(Stepped(Overriding(w, None), t), Some(o))
  {
  }

  /** So an override that has expired when it is installed never shows, nor changes anything else. */
  lemma {:induction false} ExpiredIsNone(w: World, o: Override, ts: seq<Tick>)
    requires forall i :: 0 <= i < |ts| ==> o.until <= ts[i].now
    ensures SteppedAll(Overriding(w, Some(o)), ts) == Overriding(SteppedAll(Overriding(w, None), ts), Some(o))
    decreases |ts|
  {
    if ts != [] {
      var front, t := ts[..|ts| - 1], ts[|ts| - 1];
      ExpiredIsNone(w, o, front);
      assert SteppedAll(Overriding(w, None), front).engine.override == None by { TicksKeepOverride(Overriding(w, None), front); }
      ExpiredTick(SteppedAll(Overriding(w, None), front), o, t);
    }
  }

  /** With the ramp off nothing is written by hand at all. */
  lemma {:induction false} ExpiredIsNeverWritten(acts: seq<Action>, o: Override, ts: seq<Tick>)
    requires !RampOn(acts) && forall i :: 0 <= i < |ts| ==> o.until <= ts[i].now
    ensures var v := SteppedAll(Performed(Run(acts), Replace(Some(o))), ts);
            v.hands == Run(acts).hands && (v.lamp == Run(acts).lamp || v.lamp == OwnSchedule)
    decreases |ts|
  {
    RearmsAreDormantEdges(acts);
    if ts != [] {
      ExpiredIsNeverWritten(acts, o, ts[..|ts| - 1]);
      TicksKeepOverride(Performed(Run(acts), Replace(Some(o))), ts[..|ts| - 1]);
    }
  }

  lemma {:induction false} TicksKeepOverride(w: World, ts: seq<Tick>)
    ensures var v := SteppedAll(w, ts); v.engine.override == w.engine.override && v.engine.live == w.engine.live
    decreases |ts|
  {
    if ts != [] { TicksKeepOverride(w, ts[..|ts| - 1]); }
  }

  /** A tick before its time is up drives towards it, with the ramp on or off. */
  lemma RunningOverrideIsTarget(acts: seq<Action>, o: Override, t: Tick)
    requires OverrideOf(acts) == Some(o) && t.clockSane && t.now < o.until
    ensures var v := Run(acts + [Step(t)]); v.engine.target == o.channels && v.engine.overrideWas
  {
    RearmsAreDormantEdges(acts);
    assert (acts + [Step(t)])[..|acts|] == acts;
  }

  /** A tick at that time or later drives towards the computed light again. */
  lemma EndedOverrideIsNotTarget(acts: seq<Action>, o: Override, t: Tick)
    requires OverrideOf(acts) == Some(o) && t.clockSane && o.until <= t.now
    ensures var v := Run(acts + [Step(t)]); v.engine.target == t.computed && !v.engine.overrideWas
  {
    RearmsAreDormantEdges(acts);
    assert (acts + [Step(t)])[..|acts|] == acts;
  }

  /** Ticks at which the override was shown. */
  predicate BeforeEnd(ts: seq<Tick>, o: Override) {
    forall i :: 0 <= i < |ts| ==> ts[i].clockSane && ts[i].now < o.until
  }

  lemma {:induction false} ShownTicks(w: World, o: Override, shown: seq<Tick>)
    requires w.engine.override == Some(o) && !w.engine.live && BeforeEnd(shown, o)
    ensures var v := SteppedAll(w, shown);
            && v.engine.override == Some(o) && !v.engine.live && v.rearms == w.rearms
            && (shown != [] ==> v.engine.overrideWas && v.engine.target == o.channels)
    decreases |shown|
  {
    if shown != [] { ShownTicks(w, o, shown[..|shown| - 1]); }
  }

  /**
   After any actions that leave the ramp off: an override installed and shown at ticks before its time is
   up ends at the first tick from then on, with one re-arm and no hand write. The lamp is on its own
   schedule when the re-arm succeeds, and as it was when it fails.
   */
  lemma OverrideEnds(acts: seq<Action>, o: Override, shown: seq<Tick>, t: Tick)
    requires !RampOn(acts) && shown != [] && BeforeEnd(shown, o) && t.clockSane && o.until <= t.now
    ensures var w := SteppedAll(Performed(Run(acts), Replace(Some(o))), shown);
            var v := Stepped(w, t);
            && w.engine.target == o.channels && v.engine.target == t.computed
            && v.rearms == Run(acts).rearms + 1 && v.hands == w.hands
            && v.lamp == if t.repushOk then OwnSchedule else w.lamp
  {
    RearmsAreDormantEdges(acts);
    ShownTicks(Performed(Run(acts), Replace(Some(o))), o, shown);
  }

  // ---- re-arms, read off the actions alone ----

  function OverrideOf(acts: seq<Action>): Option<Override> {
    if acts == [] then None
    else
      var a := acts[|acts| - 1];
      if a.Replace? then a.override else OverrideOf(acts[..|acts| - 1])
  }

  predicate RampOn(acts: seq<Action>) {
    acts != [] &&
    var a := acts[|acts| - 1];
    a.Start? || (!a.Stop? && RampOn(acts[..|acts| - 1]))
  }

  /** The most recent tick found an active override. */
  predicate LastFoundActive(acts: seq<Action>) {
    acts != [] &&
    var a, p := acts[|acts| - 1], acts[..|acts| - 1];
    if a.Step? && a.tick.clockSane then Active(OverrideOf(p), a.tick.now) else LastFoundActive(p)
  }

  /** The last action is a tick on the dormant edge from an active to an inactive override. */
  predicate IsDormantEdge(acts: seq<Action>)
    requires acts != []
  {
    var a, p := acts[|acts| - 1], acts[..|acts| - 1];
    a.Step? && a.tick.clockSane && LastFoundActive(p) && !Active(OverrideOf(p), a.tick.now) && !RampOn(p)
  }

  function DormantEdges(acts: seq<Action>): nat {
    if acts == [] then 0
    else DormantEdges(acts[..|acts| - 1]) + (if IsDormantEdge(acts) then 1 else 0)
  }

  /** Re-arms happen exactly at the dormant edges, whether or not writes succeed. */
  lemma {:induction false} RearmsAreDormantEdges(acts: seq<Action>)
    ensures var w := Run(acts);
            && w.rearms == DormantEdges(acts)
            && w.engine.override == OverrideOf(acts)
            && w.engine.live == RampOn(acts)
            && w.engine.overrideWas == LastFoundActive(acts)
  {
    if acts != [] { RearmsAreDormantEdges(acts[..|acts| - 1]); }
  }

  // ---- what the engine believes about the lamp ----

  /** What the engine counts as sent is what the lamp last accepted. */
  predicate Truthful(w: World) {
    w.engine.haveSent ==> w.engine.sent == w.engine.lastSent && w.lamp == Hand(ToU8(w.engine.lastSent))
  }

  lemma ActionsKeepTruth(w: World, a: Action)
    requires Truthful(w) && a != Stop(true)
    ensures Truthful(Performed(w, a))
  {
  }

  /**
   Turning the ramp off keeps the belief true exactly when the ramp was on or nothing counted as
   sent: turning it off again republishes the schedule without the engine noticing.
   */
  lemma StopKeepsTruth(w: World)
    requires Truthful(w)
    ensures Truthful(Performed(w, Stop(true))) <==> w.engine.live || !w.engine.haveSent
  {
  }

  /** No schedule is republished by a ramp stop while the ramp is off and a hand value counts as sent. */
  ghost predicate NoIdleStop(acts: seq<Action>) {
    forall i :: 0 <= i < |acts| && acts[i] == Stop(true) ==>
                  Run(acts[..i]).engine.live || !Run(acts[..i]).engine.haveSent
  }

  lemma {:induction false} RunsAreTruthful(acts: seq<Action>)
    requires NoIdleStop(acts)
    ensures Truthful(Run(acts))
  {
    if acts != [] {
      var n := |acts| - 1;
      var p := acts[..n];
      forall i | 0 <= i < n && p[i] == Stop(true) ensures Run(p[..i]).engine.live || !Run(p[..i]).engine.haveSent {
        assert p[..i] == acts[..i];
      }
      RunsAreTruthful(p);
      if acts[n] == Stop(true) {
        StopKeepsTruth(Run(p));
      } else {
        ActionsKeepTruth(Run(p), acts[n]);
      }
    }
  }

  /** Then every driving tick leaves its target on the lamp, unless its write failed. */
  lemma DrivingTickShowsTarget(acts: seq<Action>, a: Action)
    requires NoIdleStop(acts) && FindsDriving(Run(acts), a)
    ensures var w, v := Run(acts), Run(acts + [a]);
            && v.engine.target == Output(w.engine.override, a.tick)
            && (v.lamp == Hand(ToU8(v.engine.target)) || (v.hands == w.hands + 1 && !v.engine.lastWriteOk))
            && (w.lamp != Hand(ToU8(v.engine.target)) ==> v.hands == w.hands + 1)
  {
    RunsAreTruthful(acts);
    assert (acts + [a])[..|acts|] == acts;
  }

  /**
   The excluded case does happen: with every write succeeding, an override in force and an idle ramp
   stop, the following ticks leave the lamp on its own schedule for as long as the override lasts.
   */
  lemma {:induction false} IdleStopHidesOverride(o: Override, t: Tick, later: seq<Tick>)
    requires t.clockSane && t.handOk && t.now < o.until
    requires forall i :: 0 <= i < |later| ==> later[i].now < o.until
    ensures var w := Run([Replace(Some(o)), Step(t), Stop(true)]);
            var end := SteppedAll(w, later);
            && Run([Replace(Some(o)), Step(t)]).lamp == Hand(ToU8(o.channels))
            && end.lamp == OwnSchedule && end.hands == 1
            && end.engine == w.engine.(target := end.engine.target)
            && w.engine.override == Some(o) && w.engine.haveSent && w.engine.lastSent == o.channels
            && w.engine.overrideWas && !w.engine.live
    decreases |later|
  {
    RunOfThree(Replace(Some(o)), Step(t), Stop(true));
    if later != [] {
      IdleStopHidesOverride(o, t, later[..|later| - 1]);
    }
  }
}
