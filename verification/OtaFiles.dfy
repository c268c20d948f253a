/**
 The files an over-the-air update touches and the order in which it does (internal/updater/updater.go,
 deploy/rollback.sh). Writing a file is two operations, truncating and filling, so that a crash can
 fall between them; renaming is one.
 */
module OtaFiles {
  import opened Wrappers

  type Tag = string

  datatype Binary = Partial | Whole

  /**
   bins and tmps: the binary and its temporary file in each release directory; the rest are the link
   `current`, its temporary name, and the three state files, None when absent or empty.
   */
  datatype Disk = Disk(
    bins: map<Tag, Binary>, tmps: map<Tag, Binary>, current: Option<Tag>, currentTmp: Option<Tag>,
    previous: Option<Tag>, confirmed: Option<Tag>, rolledBack: Option<(Tag, Tag)>)

  datatype FileOp =
    | OpenTmp(t: Tag) | FillTmp(t: Tag) | RenameBinary(t: Tag)
    | TruncatePrevious | FillPrevious(t: Tag)
    | RemoveLink | MakeLink(t: Tag) | RenameLink
    | TruncateConfirmed | FillConfirmed(t: Tag)
    | TruncateMark | FillMark(from: Tag, to: Tag)

  function Effect(d: Disk, op: FileOp): Disk {
    match op
    case OpenTmp(t) => d.(tmps := d.tmps[t := Partial])
    case FillTmp(t) => d.(tmps := d.tmps[t := Whole])
    case RenameBinary(t) => if t in d.tmps then d.(bins := d.bins[t := d.tmps[t]], tmps := d.tmps - {t}) else d
    case TruncatePrevious => d.(previous := None)
    case FillPrevious(t) => d.(previous := Some(t))
    case RemoveLink => d.(currentTmp := None)
    case MakeLink(t) => d.(currentTmp := Some(t))
    case RenameLink => if d.currentTmp.Some? then d.(current := d.currentTmp, currentTmp := None) else d
    case TruncateConfirmed => d.(confirmed := None)
    case FillConfirmed(t) => d.(confirmed := Some(t))
    case TruncateMark => d.(rolledBack := None)
    case FillMark(from, to) => d.(rolledBack := Some((from, to)))
  }

  function Perform(d: Disk, ops: seq<FileOp>): Disk
    decreases |ops|
  {
    if ops == [] then d else Effect(Perform(d, ops[..|ops| - 1]), ops[|ops| - 1])
  }

  // ---- the scripts ----

  /** How writing PREVIOUS goes; its errors are ignored. */
  datatype Note = NotOpened | NotFilled | Written

  function NoteOps(tag: Tag, note: Note): seq<FileOp> {
    match note
    case NotOpened => []
    case NotFilled => [TruncatePrevious]
    case Written => [TruncatePrevious, FillPrevious(tag)]
  }

  function InstallOps(target: Tag): seq<FileOp> {
    [OpenTmp(target), FillTmp(target), RenameBinary(target)]
  }

  function LinkOps(target: Tag): seq<FileOp> {
    [RemoveLink, MakeLink(target), RenameLink]
  }

  /** Apply after download and verification; tag is the version that is running. */
  function ApplyScript(tag: Tag, target: Tag, note: Note): seq<FileOp> {
    InstallOps(target) + NoteOps(tag, note) + LinkOps(target)
  }

  function ConfirmScript(tag: Tag): seq<FileOp> {
    [TruncateConfirmed, FillConfirmed(tag)]
  }

  function RollbackScript(from: Tag, to: Tag): seq<FileOp> {
    [MakeLink(to), RenameLink, TruncateMark, FillMark(from, to)]
  }

  /** Whether and where rollback.sh moves `current`. */
  function RollbackPlan(d: Disk): Option<(Tag, Tag)> {
    if d.current.None? then None
    else
      var running := d.current.value;
      if d.confirmed == Some(running) then None
      else if d.previous.None? || d.previous.value == "" then None
      else if running == d.previous.value then None
      else if d.rolledBack == Some((running, d.previous.value)) then None
      else if d.previous.value !in d.bins then None
      else Some((running, d.previous.value))
  }

  // ---- scripts cut short ----

  /** The operations that happen when n succeed. */
  function Done(ops: seq<FileOp>, n: nat): seq<FileOp> {
    if n >= |ops| then ops else ops[..n]
  }

  function Left(n: nat, k: nat): nat {
    if n >= k then n - k else 0
  }

  lemma DoneTwo(a: FileOp, b: FileOp, n: nat)
    ensures Done([a], n) == if n == 0 then [] else [a]
    ensures Done([a, b], n) == if n == 0 then [] else if n == 1 then [a] else [a] + [b]
  {
  }

  lemma DoneThree(a: FileOp, b: FileOp, c: FileOp, n: nat)
    ensures Done([a, b, c], n) == if n == 0 then [] else if n == 1 then [a] else if n == 2 then [a] + [b] else [a] + [b] + [c]
  {
  }

  lemma DoneAppend(a: seq<FileOp>, b: seq<FileOp>, n: nat)
    ensures Done(a + b, n) == if n < |a| then Done(a, n) else a + Done(b, n - |a|)
  {
  }

  lemma ApplyParts(tag: Tag, target: Tag, note: Note, n: nat)
    ensures var a, b, c := InstallOps(target), NoteOps(tag, note), LinkOps(target);
      && |ApplyScript(tag, target, note)| == 3 + |b| + 3
      && Done(ApplyScript(tag, target, note), n) ==
           if n < 3 then Done(a, n)
           else if n - 3 < |b| then a + Done(b, n - 3)
           else a + b + Done(c, n - 3 - |b|)
  {
    DoneAppend(InstallOps(target), NoteOps(tag, note), n);
    DoneAppend(InstallOps(target) + NoteOps(tag, note), LinkOps(target), n);
  }

  lemma RollbackParts(from: Tag, to: Tag, n: nat)
    ensures Done(RollbackScript(from, to), n) ==
      if n == 0 then [] else if n == 1 then [MakeLink(to)] else if n == 2 then [MakeLink(to)] + [RenameLink]
      else if n == 3 then [MakeLink(to)] + [RenameLink] + [TruncateMark]
      else [MakeLink(to)] + [RenameLink] + [TruncateMark] + [FillMark(from, to)]
  {
  }

  /**
   The installation directory. budget is how many operations still succeed before one fails or the
   power goes; log is what was done to the files since start.
   */
  class Root {
    ghost const start: Disk
    ghost var log: seq<FileOp>
    var disk: Disk
    var budget: nat

    constructor (disk: Disk, budget: nat)
      ensures Valid() && this.disk == disk && this.budget == budget && log == [] && start == disk
    {
      start, log := disk, [];
      this.disk, this.budget := disk, budget;
    }

    ghost predicate Valid()
      reads this
    {
      disk == Perform(start, log)
    }

    method Do(op: FileOp) returns (ok: bool)
      requires Valid()
      modifies this
      ensures Valid() && ok == (old(budget) > 0)
      ensures log == (if ok then old(log) + [op] else old(log))
      ensures budget == (if ok then old(budget) - 1 else 0)
    {
      if budget == 0 { return false; }
      disk, budget := Effect(disk, op), budget - 1;
      assert (log + [op])[..|log|] == log;
      log := log + [op];
      return true;
    }

    /** The binary is written under a temporary name, and renamed when it is whole. */
    method InstallBinary(target: Tag) returns (ok: bool)
      requires Valid()
      modifies this
      ensures Valid() && ok == (old(budget) >= 3) && budget == Left(old(budget), 3)
      ensures log == old(log) + Done(InstallOps(target), old(budget))
    {
      DoneThree(OpenTmp(target), FillTmp(target), RenameBinary(target), budget);
      ok := Do(OpenTmp(target));
      if !ok { return; }
      ok := Do(FillTmp(target));
      if !ok { return; }
      ok := Do(RenameBinary(target));
    }

    /** atomicSymlink: the temporary link is removed, made, and renamed over the link. */
    method PointCurrent(target: Tag) returns (ok: bool)
      requires Valid()
      modifies this
      ensures Valid() && ok == (old(budget) >= 3) && budget == Left(old(budget), 3)
      ensures log == old(log) + Done(LinkOps(target), old(budget))
    {
      DoneThree(RemoveLink, MakeLink(target), RenameLink, budget);
      ok := Do(RemoveLink);
      if !ok { return; }
      ok := Do(MakeLink(target));
      if !ok { return; }
      ok := Do(RenameLink);
    }

    /** Writes PREVIOUS as far as note says it goes, ignoring errors; ok is false when the power went. */
    method NotePrevious(tag: Tag, note: Note) returns (ok: bool)
      requires Valid()
      modifies this
      ensures Valid() && ok == (old(budget) >= |NoteOps(tag, note)|) && budget == Left(old(budget), |NoteOps(tag, note)|)
      ensures log == old(log) + Done(NoteOps(tag, note), old(budget))
    {
      DoneTwo(TruncatePrevious, FillPrevious(tag), budget);
      if note == NotOpened { return true; }
      ok := Do(TruncatePrevious);
      if !ok { return; }
      if note == NotFilled { return; }
      ok := Do(FillPrevious(tag));
    }

    /** Apply, once the download is verified: exactly the script, as far as the budget goes. */
    method Apply(tag: Tag, target: Tag, note: Note) returns (ok: bool)
      requires Valid()
      modifies this
      ensures Valid() && ok == (old(budget) >= |ApplyScript(tag, target, note)|)
      ensures log == old(log) + Done(ApplyScript(tag, target, note), old(budget))
    {
      ApplyParts(tag, target, note, budget);
      ok := InstallBinary(target);
      if !ok { return; }
      ok := NotePrevious(tag, note);
      if !ok { return; }
      ok := PointCurrent(target);
    }

    method RollBackTo(running: Tag, previous: Tag) returns (ok: bool)
      requires Valid()
      modifies this
      ensures Valid() && ok == (old(budget) >= 4)
      ensures log == old(log) + Done(RollbackScript(running, previous), old(budget))
    {
      RollbackParts(running, previous, budget);
      ok := Do(MakeLink(previous));
      if !ok { return; }
      ok := Do(RenameLink);
      if !ok { return; }
      ok := Do(TruncateMark);
      if !ok { return; }
      ok := Do(FillMark(running, previous));
    }

    /** rollback.sh: the guards, and then exactly the script, as far as the budget goes. */
    method Rollback() returns (ok: bool)
      requires Valid()
      modifies this
      ensures Valid()
      ensures RollbackPlan(old(disk)) == None ==> log == old(log)
      ensures RollbackPlan(old(disk)).Some? ==>
        var script := RollbackScript(RollbackPlan(old(disk)).value.0, RollbackPlan(old(disk)).value.1);
        ok == (old(budget) >= 4) && log == old(log) + Done(script, old(budget))
    {
      if disk.current.None? { return true; }
      var running := disk.current.value;
      if disk.confirmed == Some(running) { return true; }
      if disk.previous.None? || disk.previous.value == "" { return true; }
      var previous := disk.previous.value;
      if running == previous { return true; }
      if disk.rolledBack == Some((running, previous)) { return true; }
      if previous !in disk.bins { return true; }
      ok := RollBackTo(running, previous);
    }
  }
}
