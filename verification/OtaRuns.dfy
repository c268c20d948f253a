/**
 Every run of updates, confirmations and rollbacks, one file operation at a time, with a crash or a
 power cut possible between any two. The rollback unit runs only while the service is down
 (deploy/reeftank-hub.service, OnFailure).
 */
module OtaRuns {
  import opened Wrappers
  import opened OtaFiles

  /** An update under way: what PREVIOUS held when it began, and pc operations of its script are done. */
  datatype Update = Update(target: Tag, note: Note, had: Option<Tag>, pc: nat)

  /**
   The running service: the version it was started as, its update, how far its confirmation is (2:
   nothing left to do), and whether it has moved `current` since it started.
   */
  datatype Service = Service(tag: Tag, update: Option<Update>, confirm: nat, moved: bool)

  datatype Rolling = Rolling(from: Tag, to: Tag, pc: nat)

  /**
   What happened since an update last moved `current`: the version that was running then, how that
   update's writing of PREVIOUS went and what PREVIOUS held before it, whether the service that did the
   update has written PREVIOUS once more, how often a rollback moved the link, and whether the installed
   version has been confirmed.
   */
  datatype History =
    History(source: Option<Tag>, note: Note, had: Option<Tag>, renoted: bool, moves: nat, proven: bool)

  /** PREVIOUS was written for the version that was running, or could not be opened and named it already. */
  predicate Noted(note: Note, had: Option<Tag>, source: Option<Tag>) {
    note == Written || (note == NotOpened && had == source)
  }

  datatype Machine = Machine(disk: Disk, service: Option<Service>, rolling: Option<Rolling>, past: History)

  datatype Action =
    | Start
    | Die
    | PowerCut
    | BeginUpdate(target: Tag, note: Note)
    | UpdateStep
    | AbandonUpdate
    | ConfirmStep
    | AbandonConfirm
    | BeginRollback
    | RollbackStep

  function Script(u: Update, tag: Tag): seq<FileOp> {
    ApplyScript(tag, u.target, u.note)
  }

  function AfterUpdateOp(m: Machine): Machine
    requires m.service.Some? && m.service.value.update.Some?
    requires m.service.value.update.value.pc < |Script(m.service.value.update.value, m.service.value.tag)|
  {
    var s := m.service.value;
    var u := s.update.value;
    var op := Script(u, s.tag)[u.pc];
    var next := u.(pc := u.pc + 1);
    var disk := Effect(m.disk, op);
    if op == RenameLink then
      Machine(disk, Some(s.(update := Some(next), moved := true)), m.rolling,
              History(Some(s.tag), u.note, u.had, false, 0, false))
    else
      Machine(disk, Some(s.(update := Some(next))), m.rolling,
              if op.FillPrevious? && s.moved then m.past.(renoted := true) else m.past)
  }

  function AfterConfirmOp(m: Machine): Machine
    requires m.service.Some? && m.service.value.confirm < 2
  {
    var s := m.service.value;
    var disk := Effect(m.disk, ConfirmScript(s.tag)[s.confirm]);
    var proven := if s.confirm == 1 && m.disk.current == Some(s.tag) && !s.moved then true else m.past.proven;
    Machine(disk, Some(s.(confirm := s.confirm + 1)), m.rolling, m.past.(proven := proven))
  }

  function AfterRollbackOp(m: Machine): Machine
    requires m.rolling.Some? && m.rolling.value.pc < 4
  {
    var r := m.rolling.value;
    var disk := Effect(m.disk, RollbackScript(r.from, r.to)[r.pc]);
    Machine(disk, m.service, Some(r.(pc := r.pc + 1)), if r.pc == 1 then m.past.(moves := m.past.moves + 1, proven := false) else m.past)
  }

  /** One action; an action that is not possible now changes nothing. */
  function Next(m: Machine, a: Action): Machine {
    match a
    case Start =>
      // the restart that ends a rollback, a restart by systemd, or a boot
      if m.service.Some? || m.disk.current.None? || (m.rolling.Some? && m.rolling.value.pc < 4) then m
      else
        var tag := m.disk.current.value;
        m.(service := Some(Service(tag, None, if m.disk.confirmed == Some(tag) then 2 else 0, false)), rolling := None)
    case Die => m.(service := None)
    case PowerCut => m.(service := None, rolling := None)
    case BeginUpdate(target, note) =>
      if m.service.None? || m.service.value.update.Some? then m
      else m.(service := Some(m.service.value.(update := Some(Update(target, note, m.disk.previous, 0)))))
    case UpdateStep =>
      if m.service.None? || m.service.value.update.None? then m
      else if m.service.value.update.value.pc >= |Script(m.service.value.update.value, m.service.value.tag)| then m
      else AfterUpdateOp(m)
    case AbandonUpdate => if m.service.None? then m else m.(service := Some(m.service.value.(update := None)))
    case ConfirmStep => if m.service.None? || m.service.value.confirm >= 2 then m else AfterConfirmOp(m)
    case AbandonConfirm => if m.service.None? then m else m.(service := Some(m.service.value.(confirm := 2)))
    case BeginRollback =>
      if m.service.Some? || m.rolling.Some? || RollbackPlan(m.disk).None? then m
      else m.(rolling := Some(Rolling(RollbackPlan(m.disk).value.0, RollbackPlan(m.disk).value.1, 0)))
    case RollbackStep => if m.rolling.None? || m.rolling.value.pc >= 4 then m else AfterRollbackOp(m)
  }

  function Run(m: Machine, actions: seq<Action>): Machine
    decreases |actions|
  {
    if actions == [] then m else Next(Run(m, actions[..|actions| - 1]), actions[|actions| - 1])
  }

  /** The action is the rollback's renaming of the link. */
  predicate Repoints(m: Machine, a: Action) {
    a == RollbackStep && m.rolling.Some? && m.rolling.value.pc == 1
  }

  // ---- the invariant ----

  predicate Installed(d: Disk, t: Tag) {
    t in d.bins && d.bins[t] == Whole
  }

  predicate DiskSound(d: Disk) {
    && (forall t :: t in d.bins ==> d.bins[t] == Whole)
    && (d.current.Some? ==> Installed(d, d.current.value))
  }

  /** Where the link's renaming is in the script. */
  function LinkAt(note: Note): nat {
    match note
    case NotOpened => 5
    case NotFilled => 6
    case Written => 7
  }

  predicate UpdateSound(d: Disk, tag: Tag, u: Update) {
    && (u.pc == 2 ==> u.target in d.tmps && d.tmps[u.target] == Whole)
    && (u.pc >= 3 ==> Installed(d, u.target))
    && (u.pc == LinkAt(u.note) ==> d.currentTmp == Some(u.target))
    && (u.note == Written && u.pc >= 5 ==> d.previous == Some(tag))
    && (u.note == NotFilled && u.pc >= 4 ==> d.previous == None)
    && (u.note == NotOpened ==> d.previous == u.had)
  }

  predicate RollingSound(d: Disk, r: Rolling) {
    && r.pc <= 4 && r.from != r.to && d.previous == Some(r.to) && Installed(d, r.to)
    && (r.pc <= 1 ==> d.current == Some(r.from) && d.confirmed != Some(r.from))
    && (r.pc == 1 ==> d.currentTmp == Some(r.to))
    && (r.pc >= 2 ==> d.current == Some(r.to))
  }

  predicate ServiceSound(m: Machine, s: Service) {
    && m.rolling.None?
    && (!s.moved ==> m.disk.current == Some(s.tag))
    && (s.moved ==> m.past.moves == 0 && !m.past.proven && m.past.source == Some(s.tag))
    && (s.confirm < 2 ==> !m.past.proven)
    && (s.update.Some? ==> UpdateSound(m.disk, s.tag, s.update.value))
  }

  /** What PREVIOUS holds, unless it was emptied or names the installed version by now. */
  function Remembered(past: History): Option<Tag> {
    if past.note == Written || past.renoted then past.source
    else if past.note == NotOpened then past.had
    else None
  }

  predicate PastSound(d: Disk, past: History) {
    && past.moves <= 1
    && (past.moves == 1 ==> d.previous == None || d.previous == d.current)
    && (past.source.Some? && past.moves == 0 ==> d.previous == None || d.previous == d.current || d.previous == Remembered(past))
    && (past.proven ==> d.current.Some? && d.confirmed == d.current)
  }

  predicate Inv(m: Machine) {
    && DiskSound(m.disk) && PastSound(m.disk, m.past)
    && (m.service.Some? ==> ServiceSound(m, m.service.value))
    && (m.rolling.Some? ==> RollingSound(m.disk, m.rolling.value) && (m.rolling.value.pc <= 1 ==> m.past.moves == 0))
  }

  lemma ScriptParts(u: Update, tag: Tag, pc: nat)
    requires pc < |Script(u, tag)|
    ensures |Script(u, tag)| == LinkAt(u.note) + 1
    ensures Script(u, tag)[pc] ==
      if pc == 0 then OpenTmp(u.target) else if pc == 1 then FillTmp(u.target) else if pc == 2 then RenameBinary(u.target)
      else if pc == LinkAt(u.note) then RenameLink else if pc == LinkAt(u.note) - 1 then MakeLink(u.target)
      else if pc == LinkAt(u.note) - 2 then RemoveLink else if pc == 3 then TruncatePrevious else FillPrevious(tag)
  {
  }

  lemma UpdateKeepsInv(m: Machine)
    requires Inv(m) && m.service.Some? && m.service.value.update.Some?
    requires m.service.value.update.value.pc < |Script(m.service.value.update.value, m.service.value.tag)|
    ensures Inv(AfterUpdateOp(m))
  {
    var s := m.service.value;
    var u := s.update.value;
    ScriptParts(u, s.tag, u.pc);
  }

  lemma ConfirmKeepsInv(m: Machine)
    requires Inv(m) && m.service.Some? && m.service.value.confirm < 2
    ensures Inv(AfterConfirmOp(m))
  {
  }

  lemma RollbackKeepsInv(m: Machine)
    requires Inv(m) && m.rolling.Some? && m.rolling.value.pc < 4
    ensures Inv(AfterRollbackOp(m))
  {
  }

  lemma NextKeepsInv(m: Machine, a: Action)
    requires Inv(m)
    ensures Inv(Next(m, a))
  {
    if a == UpdateStep && Next(m, a) != m {
      UpdateKeepsInv(m);
    } else if a == ConfirmStep && Next(m, a) != m {
      ConfirmKeepsInv(m);
    } else if a == RollbackStep && Next(m, a) != m {
      RollbackKeepsInv(m);
    }
  }

  const NO_HISTORY: History := History(None, NotOpened, None, false, 0, false)

  /** A machine as set up: whole binaries, nothing under way, no update yet. */
  predicate Fresh(m: Machine) {
    DiskSound(m.disk) && m.service == None && m.rolling == None && m.past == NO_HISTORY
  }

  lemma {:induction false} RunsKeepInv(m: Machine, actions: seq<Action>)
    requires Fresh(m)
    ensures Inv(Run(m, actions))
    decreases |actions|
  {
    if actions != [] {
      RunsKeepInv(m, actions[..|actions| - 1]);
      NextKeepsInv(Run(m, actions[..|actions| - 1]), actions[|actions| - 1]);
    }
  }

  // ---- an update that is not disturbed ----

  function UpdateSteps(m: Machine, k: nat): Machine {
    if k == 0 then m else Next(UpdateSteps(m, k - 1), UpdateStep)
  }

  lemma PerformMore(d: Disk, ops: seq<FileOp>, k: nat)
    requires k < |ops|
    ensures Perform(d, ops[..k + 1]) == Effect(Perform(d, ops[..k]), ops[k])
  {
    assert ops[..k + 1][..k] == ops[..k];
  }

  predicate Updating(m: Machine, tag: Tag, u: Update) {
    m.service.Some? && m.service.value.tag == tag && m.service.value.update == Some(u)
  }

  lemma OneStep(m: Machine, tag: Tag, u: Update)
    requires Updating(m, tag, u) && u.pc < |Script(u, tag)|
    ensures Updating(Next(m, UpdateStep), tag, u.(pc := u.pc + 1))
    ensures Next(m, UpdateStep).disk == Effect(m.disk, Script(u, tag)[u.pc])
  {
  }

  /** k steps of an update do to the files what the first k operations of its script do. */
  lemma {:induction false} StepsPerformTheScript(m: Machine, tag: Tag, u: Update, k: nat)
    requires Updating(m, tag, u) && u.pc == 0 && k <= |Script(u, tag)|
    ensures UpdateSteps(m, k).disk == Perform(m.disk, Script(u, tag)[..k])
    ensures Updating(UpdateSteps(m, k), tag, u.(pc := k))
    decreases k
  {
    if k > 0 {
      StepsPerformTheScript(m, tag, u, k - 1);
      OneStep(UpdateSteps(m, k - 1), tag, u.(pc := k - 1));
      PerformMore(m.disk, Script(u, tag), k - 1);
    }
  }

  lemma PerformThree(d: Disk, o: FileOp, p: FileOp, q: FileOp)
    ensures Perform(d, [o, p, q]) == Effect(Effect(Effect(d, o), p), q)
  {
    assert [o, p, q][..2] == [o, p] && [o, p][..1] == [o] && [o][..0] == [];
    assert Perform(d, [o]) == Effect(d, o);
    assert Perform(d, [o, p]) == Effect(Effect(d, o), p);
  }

  lemma {:induction false} PerformThen(d: Disk, a: seq<FileOp>, b: seq<FileOp>)
    ensures Perform(d, a + b) == Perform(Perform(d, a), b)
    decreases |b|
  {
    if b == [] {
      assert a + b == a;
    } else {
      PerformThen(d, a, b[..|b| - 1]);
      assert (a + b)[..|a + b| - 1] == a + b[..|b| - 1];
    }
  }

  /** What PREVIOUS holds after it was written as far as note says. */
  function AfterNote(d: Disk, tag: Tag, note: Note): Option<Tag> {
    match note
    case NotOpened => d.previous
    case NotFilled => None
    case Written => Some(tag)
  }

  lemma NoteLeaves(d: Disk, tag: Tag, note: Note)
    ensures Perform(d, NoteOps(tag, note)) == d.(previous := AfterNote(d, tag, note))
  {
    if note == NotFilled {
      assert Perform(d, [TruncatePrevious][..0]) == d;
    } else if note == Written {
      var ops := [TruncatePrevious, FillPrevious(tag)];
      assert ops[..1] == [TruncatePrevious] && ops[..1][..0] == [];
      assert Perform(d, ops[..1]) == Effect(d, TruncatePrevious);
    }
  }

  /** What a completed update leaves on disk. */
  lemma UpdateLeaves(d: Disk, tag: Tag, target: Tag, note: Note)
    ensures var e := Perform(d, ApplyScript(tag, target, note));
      && e.bins == d.bins[target := Whole] && e.current == Some(target) && e.previous == AfterNote(d, tag, note)
      && e.confirmed == d.confirmed && e.rolledBack == d.rolledBack
  {
    var a, b, c := InstallOps(target), NoteOps(tag, note), LinkOps(target);
    PerformThen(d, a + b, c);
    PerformThen(d, a, b);
    PerformThree(d, OpenTmp(target), FillTmp(target), RenameBinary(target));
    NoteLeaves(Perform(d, a), tag, note);
    PerformThree(Perform(Perform(d, a), b), RemoveLink, MakeLink(target), RenameLink);
  }

  // ---- main results ----

  /**
   A completed update that fails is rolled back to the version that ran, exactly when that version was
   noted, is another one and still installed, the new one is not on record as confirmed, and this very
   rollback has not been made before: a second failure of the same version is not undone. When PREVIOUS
   was emptied nothing is rolled back; when it could not be opened its old content decides.
   */
  lemma FailedUpdateIsRolledBack(d: Disk, tag: Tag, target: Tag, note: Note)
    ensures RollbackPlan(Perform(d, ApplyScript(tag, target, note))) == Some((target, tag)) <==>
      && Noted(note, d.previous, Some(tag))
      && tag != target && tag != "" && tag in d.bins && d.confirmed != Some(target) && d.rolledBack != Some((target, tag))
    ensures note == NotFilled ==> RollbackPlan(Perform(d, ApplyScript(tag, target, note))) == None
    ensures var plan := RollbackPlan(Perform(d, ApplyScript(tag, target, note)));
      plan.Some? ==> plan.value.0 == target && (plan.value.1 == tag || (note == NotOpened && d.previous == Some(plan.value.1)))
  {
    UpdateLeaves(d, tag, target, note);
  }

  /** What a completed rollback leaves on disk. */
  lemma RollbackLeaves(d: Disk, from: Tag, to: Tag)
    ensures Perform(d, RollbackScript(from, to))
         == d.(current := Some(to), currentTmp := None, rolledBack := Some((from, to)))
  {
    var ops := RollbackScript(from, to);
    assert ops == [MakeLink(to), RenameLink, TruncateMark] + [FillMark(from, to)];
    PerformThen(d, [MakeLink(to), RenameLink, TruncateMark], [FillMark(from, to)]);
    PerformThree(d, MakeLink(to), RenameLink, TruncateMark);
    var e := Perform(d, [MakeLink(to), RenameLink, TruncateMark]);
    assert [FillMark(from, to)][..0] == [];
    assert Perform(e, [FillMark(from, to)]) == Effect(e, FillMark(from, to));
  }

  /** A completed rollback is remembered: installing the same version again and failing again is not rolled back. */
  lemma SecondFailureStays(d: Disk, from: Tag, to: Tag)
    ensures RollbackPlan(Perform(Perform(d, RollbackScript(from, to)), ApplyScript(to, from, Written))) == None
  {
    RollbackLeaves(d, from, to);
    UpdateLeaves(Perform(d, RollbackScript(from, to)), to, from, Written);
  }

  /** But another version is, unless it is on record as confirmed. */
  lemma OtherFailureIsRolledBack(d: Disk, from: Tag, to: Tag, other: Tag)
    requires other != from && other != to && to != "" && to in d.bins && d.confirmed != Some(other)
    ensures RollbackPlan(Perform(Perform(d, RollbackScript(from, to)), ApplyScript(to, other, Written))) == Some((other, to))
  {
    RollbackLeaves(d, from, to);
    UpdateLeaves(Perform(d, RollbackScript(from, to)), to, other, Written);
  }

  /** A confirmed version is not rolled back, and the version before it is no longer on record as confirmed. */
  lemma ConfirmedStays(d: Disk, tag: Tag)
    ensures Perform(d, ConfirmScript(tag)) == d.(confirmed := Some(tag))
    ensures d.current == Some(tag) ==> RollbackPlan(Perform(d, ConfirmScript(tag))) == None
  {
    var ops := ConfirmScript(tag);
    assert ops[..1] == [TruncateConfirmed] && ops[..1][..0] == [];
    assert Perform(d, ops[..1]) == Effect(d, TruncateConfirmed);
  }

  /** Whatever crashes, `current` names a release whose binary is whole. */
  lemma CurrentIsInstalled(m: Machine, actions: seq<Action>)
    requires Fresh(m)
    ensures var d := Run(m, actions).disk; d.current.Some? ==> Installed(d, d.current.value)
  {
    RunsKeepInv(m, actions);
  }

  /** A rollback never leaves the version on record as confirmed, nor one confirmed since it was installed. */
  lemma RollbackSparesConfirmed(m: Machine, actions: seq<Action>, a: Action)
    requires Fresh(m) && Repoints(Run(m, actions), a)
    ensures var before := Run(m, actions); !before.past.proven && before.disk.confirmed != before.disk.current
  {
    RunsKeepInv(m, actions);
  }

  /** Between two updates' moves of `current`, and before the first, a rollback moves it at most once. */
  lemma RollbackMovesOnce(m: Machine, actions: seq<Action>, a: Action)
    requires Fresh(m)
    ensures Run(m, actions).past.moves <= 1
    ensures Repoints(Run(m, actions), a) ==> Run(m, actions).past.moves == 0
  {
    RunsKeepInv(m, actions);
  }

  /** When PREVIOUS was written, a rollback lands on the version that was running when the update was applied. */
  lemma RollbackLandsOnSource(m: Machine, actions: seq<Action>, a: Action)
    requires Fresh(m) && Repoints(Run(m, actions), a)
    requires Run(m, actions).past.source.Some? && Run(m, actions).past.note == Written
    ensures Next(Run(m, actions), a).disk.current == Run(m, actions).past.source
  {
    RunsKeepInv(m, actions);
  }

  /** A crash in a rollback after its move leaves nothing to repeat: the next rollback stays put. */
  lemma MovedRollbackStaysPut(m: Machine, actions: seq<Action>)
    requires Fresh(m) && Run(m, actions).past.moves == 1 && Run(m, actions).rolling.None?
    ensures RollbackPlan(Run(m, actions).disk) == None
  {
    RunsKeepInv(m, actions);
  }

  /**
   In every run a rollback of an update lands on the version that was running exactly when the update
   noted it, or its service wrote PREVIOUS once more afterwards. With PREVIOUS emptied and not written
   again no rollback moves the link, and with PREVIOUS unopened it lands on what PREVIOUS held before.
   */
  lemma RollbackLandsExactly(m: Machine, actions: seq<Action>, a: Action)
    requires Fresh(m) && Repoints(Run(m, actions), a) && Run(m, actions).past.source.Some?
    ensures var past, landed := Run(m, actions).past, Next(Run(m, actions), a).disk.current;
      && (landed == past.source <==> Noted(past.note, past.had, past.source) || past.renoted)
      && (!past.renoted ==> past.note != NotFilled)
      && (!past.renoted && past.note == NotOpened ==> landed == past.had)
  {
    RunsKeepInv(m, actions);
  }

  lemma RunMore(m: Machine, actions: seq<Action>, a: Action)
    ensures Run(m, actions + [a]) == Next(Run(m, actions), a)
  {
    assert (actions + [a])[..|actions|] == actions;
  }

  /** Version b runs, a is noted from an earlier update. */
  function Aged(): Machine {
    Machine(Disk(map["a" := Whole, "b" := Whole], map[], Some("b"), None, Some("a"), None, None),
            None, None, NO_HISTORY)
  }

  /** Aged, with b's update to c at step pc. */
  function Halfway(disk: Disk, pc: nat): Machine {
    Machine(disk, Some(Service("b", Some(Update("c", NotOpened, Some("a"), pc)), 0, false)), None, Aged().past)
  }

  lemma UpdateWrites(d: Disk)
    ensures Next(Halfway(d, 0), UpdateStep) == Halfway(Effect(d, OpenTmp("c")), 1)
    ensures Next(Halfway(d, 1), UpdateStep) == Halfway(Effect(d, FillTmp("c")), 2)
    ensures Next(Halfway(d, 2), UpdateStep) == Halfway(Effect(d, RenameBinary("c")), 3)
  {
  }

  lemma UpdateLinks(d: Disk)
    ensures Next(Halfway(d, 3), UpdateStep) == Halfway(Effect(d, RemoveLink), 4)
    ensures Next(Halfway(d, 4), UpdateStep) == Halfway(Effect(d, MakeLink("c")), 5)
    ensures Next(Halfway(d, 5), UpdateStep)
      == Machine(Effect(d, RenameLink), Some(Service("b", Some(Update("c", NotOpened, Some("a"), 6)), 0, true)), None,
                 History(Some("b"), NotOpened, Some("a"), false, 0, false))
  {
  }

  lemma UpdateFiles(d: Disk)
    requires d == Aged().disk
    ensures Effect(Effect(Effect(d, OpenTmp("c")), FillTmp("c")), RenameBinary("c")) == d.(bins := d.bins["c" := Whole])
  {
    assert map["c" := Partial]["c" := Whole] - {"c"} == map[];
  }

  lemma UpdateRun(m: Machine)
    requires m == Halfway(Aged().disk, 0)
    ensures Next(Next(Next(Next(Next(Next(m, UpdateStep), UpdateStep), UpdateStep), UpdateStep), UpdateStep), UpdateStep)
      == Machine(m.disk.(bins := m.disk.bins["c" := Whole], current := Some("c")),
                 Some(Service("b", Some(Update("c", NotOpened, Some("a"), 6)), 0, true)), None, History(Some("b"), NotOpened, Some("a"), false, 0, false))
  {
    var d0 := m.disk;
    var d1 := Effect(d0, OpenTmp("c"));
    var d2 := Effect(d1, FillTmp("c"));
    var d3 := Effect(d2, RenameBinary("c"));
    UpdateWrites(d0);
    UpdateWrites(d1);
    UpdateWrites(d2);
    UpdateFiles(d0);
    UpdateLinks(d3);
    UpdateLinks(Effect(d3, RemoveLink));
    UpdateLinks(Effect(Effect(d3, RemoveLink), MakeLink("c")));
  }

  lemma SixMore(m: Machine, s: seq<Action>, u: Action) returns (t: seq<Action>)
    ensures Run(m, t) == Next(Next(Next(Next(Next(Next(Run(m, s), u), u), u), u), u), u)
  {
    var s1 := s + [u];
    var s2 := s1 + [u];
    var s3 := s2 + [u];
    var s4 := s3 + [u];
    var s5 := s4 + [u];
    t := s5 + [u];
    RunMore(m, s, u);
    RunMore(m, s1, u);
    RunMore(m, s2, u);
    RunMore(m, s3, u);
    RunMore(m, s4, u);
    RunMore(m, s5, u);
  }

  lemma ThreeMore(m: Machine, s: seq<Action>, a: Action, b: Action, c: Action)
    ensures Run(m, s + [a] + [b] + [c]) == Next(Next(Next(Run(m, s), a), b), c)
  {
    RunMore(m, s, a);
    RunMore(m, s + [a], b);
    RunMore(m, s + [a] + [b], c);
  }

  lemma UpdateBegins()
    ensures Run(Aged(), [Start] + [BeginUpdate("c", NotOpened)])
      == Halfway(Aged().disk, 0)
  {
    RunMore(Aged(), [], Start);
    assert [] + [Start] == [Start];
    RunMore(Aged(), [Start], BeginUpdate("c", NotOpened));
  }

  lemma RollbackEnds(m: Machine)
    requires m == Machine(Aged().disk.(bins := Aged().disk.bins["c" := Whole], current := Some("c")),
                          Some(Service("b", Some(Update("c", NotOpened, Some("a"), 6)), 0, true)), None, History(Some("b"), NotOpened, Some("a"), false, 0, false))
    ensures var n := Next(Next(Next(m, Die), BeginRollback), RollbackStep);
      Repoints(n, RollbackStep) && n.past.source == Some("b") && Next(n, RollbackStep).disk.current == Some("a")
  {
  }

  /**
   The ignored error matters: when PREVIOUS cannot be opened during the update to c, the rollback
   lands on a, though b was running.
   */
  lemma UnnotedUpdateLandsElsewhere() returns (actions: seq<Action>)
    ensures Fresh(Aged()) && Repoints(Run(Aged(), actions), RollbackStep)
    ensures Run(Aged(), actions).past.source == Some("b")
    ensures Next(Run(Aged(), actions), RollbackStep).disk.current == Some("a")
  {
    UpdateBegins();
    var s := SixMore(Aged(), [Start] + [BeginUpdate("c", NotOpened)], UpdateStep);
    UpdateRun(Run(Aged(), [Start] + [BeginUpdate("c", NotOpened)]));
    ThreeMore(Aged(), s, Die, BeginRollback, RollbackStep);
    RollbackEnds(Run(Aged(), s));
    actions := s + [Die] + [BeginRollback] + [RollbackStep];
  }
}
