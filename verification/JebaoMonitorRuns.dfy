/**
 All interleavings of refreshes, device controls and settings updates on one JEBAO monitor. An
 action is one atomic step: a section under the lock, or the answer of a device or of the network.
 */
module JebaoMonitorRuns {
  import opened Wrappers
  import opened JebaoMonitor

  /** One goroutine of a refresh. */
  datatype Worker = Fresh | Chosen(id: Identity) | Taken(id: Identity) | HasRead(id: Identity, reading: Reading) | Finished

  /** Where an operation stands. */
  datatype Op =
    | Idle
    | Discovering
    | Found(ids: seq<Identity>)
    | Gathering
    | Working(hosts: Hosts, seen: seq<Device>, work: seq<Worker>)
    | Probing(index: nat, keys: set<string>, host: string)
    | Writing(index: nat, id: Identity)
    | Storing(index: nat, id: Identity, reading: Reading)
    | Leaving

  datatype State = State(devices: seq<Device>, hosts: Hosts, busy: bool, ops: seq<Op>)

  datatype Action =
    | StartRefresh(op: nat, discover: bool)
    | NetworkAnswers(op: nat, ids: seq<Identity>)
    | AcceptFound(op: nat)
    | Gather(op: nat)
    | WorkerProbes(op: nat, i: nat, answers: seq<Identity>, now: int)
    | WorkerAccepts(op: nat, i: nat)
    | WorkerReads(op: nat, i: nat, values: Option<map<string, int>>, now: int)
    | WorkerStores(op: nat, i: nat, now: int)
    | WorkersDone(op: nat)
    | StartControl(op: nat, index: nat, keys: set<string>)
    | ControlProbes(op: nat, answers: seq<Identity>)
    | ControlWrites(op: nat, values: Option<map<string, int>>, now: int)
    | ControlStores(op: nat, now: int)
    | Leave(op: nat)
    | PutSettings(hosts: Hosts, private: set<string>, saved: bool)

  /** The first answer from the registered hardware address. */
  function Pick(answers: seq<Identity>, mac: string): Option<Identity> {
    if answers == [] then None
    else if SameMac(answers[0].mac, mac) then if answers[0].ip == "" then None else Some(answers[0])
    else Pick(answers[1..], mac)
  }

  function PickForControl(answers: seq<Identity>, mac: string, keys: set<string>): Option<Identity> {
    if answers == [] then None
    else if answers[0].mac == mac && answers[0].key in keys then if answers[0].ip == "" then None else Some(answers[0])
    else PickForControl(answers[1..], mac, keys)
  }

  function Enter(s: State, op: nat, next: Op): State
    requires op < |s.ops|
  {
    if s.busy || s.ops[op] != Idle then s else s.(busy := true, ops := s.ops[op := next])
  }

  function At(s: State, op: nat, next: Op): State
    requires op < |s.ops|
  {
    s.(ops := s.ops[op := next])
  }

  function WithWorker(s: State, op: nat, i: nat, w: Worker): State
    requires op < |s.ops| && s.ops[op].Working? && i < |s.ops[op].work|
  {
    At(s, op, s.ops[op].(work := s.ops[op].work[i := w]))
  }

  predicate AtWorker(s: State, op: nat, i: nat) {
    op < |s.ops| && s.ops[op].Working? && i < |s.ops[op].work| && i < |s.ops[op].seen| && i < |s.devices|
  }

  function Update(s: State, i: nat, d: Device): State
    requires i < |s.devices|
  {
    s.(devices := s.devices[i := d])
  }

  function WorkerNext(s: State, op: nat, i: nat, a: Action): State
    requires AtWorker(s, op, i)
  {
    var work := s.ops[op].work[i];
    match a
    case WorkerProbes(_, _, answers, now) =>
      if work != Fresh then s
      else
        var pick := if Target(s.ops[op].hosts, s.ops[op].seen[i]) == "" then None else Pick(answers, s.ops[op].seen[i].mac);
        if pick.None? then WithWorker(Update(s, i, FailedDevice(s.devices[i], "no answer", now)), op, i, Finished)
        else WithWorker(s, op, i, Chosen(pick.value))
    case WorkerAccepts(_, _) =>
      if !work.Chosen? then s else WithWorker(s.(devices := AcceptAll(s.devices, [work.id])), op, i, Taken(work.id))
    case WorkerReads(_, _, values, now) =>
      if !work.Taken? then s
      else if values.None? || work.id.key == "" then WithWorker(Update(s, i, FailedDevice(s.devices[i], "read failed", now)), op, i, Finished)
      else WithWorker(s, op, i, HasRead(work.id, Reading(work.id, values.value)))
    case WorkerStores(_, _, now) =>
      if !work.HasRead? then s else WithWorker(Update(s, i, ReadDevice(s.devices[i], work.reading, now)), op, i, Finished)
    case _ => s
  }

  predicate AllFinished(work: seq<Worker>) {
    forall i :: 0 <= i < |work| ==> work[i] == Finished
  }

  /** Actions of an operation as a whole. */
  function OpNext(s: State, op: nat, a: Action): State
    requires op < |s.ops|
  {
    var o := s.ops[op];
    match a
    case StartRefresh(_, discover) => Enter(s, op, if discover then Discovering else Gathering)
    case NetworkAnswers(_, ids) => if o == Discovering then At(s, op, Found(ids)) else s
    case AcceptFound(_) => if o.Found? then At(s.(devices := AcceptAll(s.devices, o.ids)), op, Gathering) else s
    case Gather(_) =>
      if o == Gathering then At(s, op, Working(s.hosts, s.devices, seq(|s.devices|, _ => Fresh))) else s
    case WorkersDone(_) => if o.Working? && AllFinished(o.work) then At(s, op, Leaving) else s
    case StartControl(_, index, keys) =>
      if index >= |s.devices| || Target(s.hosts, s.devices[index]) == "" then s
      else Enter(s, op, Probing(index, keys, Target(s.hosts, s.devices[index])))
    case ControlProbes(_, answers) =>
      if !o.Probing? || o.index >= |s.devices| then s
      else
        var pick := PickForControl(answers, s.devices[o.index].mac, o.keys);
        At(s, op, if pick.None? then Leaving else Writing(o.index, pick.value))
    case ControlWrites(_, values, now) =>
      if !o.Writing? || o.index >= |s.devices| then s
      else if values.None? || o.id.key == "" then At(Update(s, o.index, FailedDevice(s.devices[o.index], "write failed", now)), op, Leaving)
      else At(s, op, Storing(o.index, o.id, Reading(o.id, values.value)))
    case ControlStores(_, now) =>
      if !o.Storing? || o.index >= |s.devices| then s
      else At(Update(s, o.index, ReadDevice(s.devices[o.index].(identity := o.id), o.reading, now)), op, Leaving)
    case Leave(_) => if o == Leaving then At(s, op, Idle).(busy := false) else s
    case _ => s
  }

  /** One action; an action that is not enabled changes nothing. */
  function Next(s: State, a: Action): State {
    match a
    case PutSettings(hosts, private, saved) =>
      if s.busy || !GoodHosts(s.devices, hosts, private) || !saved then s
      else s.(hosts := hosts, devices := Disconnected(s.devices))
    case WorkerProbes(op, i, _, _) => if AtWorker(s, op, i) then WorkerNext(s, op, i, a) else s
    case WorkerAccepts(op, i) => if AtWorker(s, op, i) then WorkerNext(s, op, i, a) else s
    case WorkerReads(op, i, _, _) => if AtWorker(s, op, i) then WorkerNext(s, op, i, a) else s
    case WorkerStores(op, i, _) => if AtWorker(s, op, i) then WorkerNext(s, op, i, a) else s
    case _ => if a.op < |s.ops| then OpNext(s, a.op, a) else s
  }

  function Run(s: State, actions: seq<Action>): State
    decreases |actions|
  {
    if actions == [] then s else Next(Run(s, actions[..|actions| - 1]), actions[|actions| - 1])
  }

  // ---- the invariant ----

  predicate Registered(devices: seq<Device>) {
    forall i, j :: 0 <= i < j < |devices| ==> !SameMac(devices[i].mac, devices[j].mac)
  }

  /** Attributes come from the registered device, under the product key now on record. */
  predicate Sound(d: Device) {
    && (d.attributes.Some? <==> d.lastSuccess.Some?)
    && (d.attributes.Some? ==>
          SameMac(d.attributes.value.from.mac, d.mac) && d.attributes.value.from.key == d.identity.key && d.identity.key != "")
  }

  predicate WorkerSound(d: Device, w: Worker) {
    match w
    case Chosen(id) => SameMac(id.mac, d.mac)
    case Taken(id) => SameMac(id.mac, d.mac) && d.identity == id
    case HasRead(id, r) => SameMac(id.mac, d.mac) && d.identity == id && r.from == id && id.key != ""
    case _ => true
  }

  predicate OpSound(s: State, o: Op) {
    match o
    case Working(hosts, seen, work) =>
      && hosts == s.hosts && |seen| == |work| == |s.devices|
      && (forall i :: 0 <= i < |seen| ==> seen[i].mac == s.devices[i].mac && seen[i].id == s.devices[i].id)
      && (forall i :: 0 <= i < |work| ==> WorkerSound(s.devices[i], work[i]))
    case Probing(index, keys, host) => index < |s.devices|
    case Writing(index, id) => index < |s.devices| && SameMac(id.mac, s.devices[index].mac)
    case Storing(index, id, r) => index < |s.devices| && SameMac(id.mac, s.devices[index].mac) && r.from == id && id.key != ""
    case _ => true
  }

  predicate Holds(s: State, op: int) {
    0 <= op < |s.ops| && s.ops[op] != Idle
  }

  /** At most one operation is under way, and busy says whether there is one. */
  ghost predicate SingleFlight(s: State) {
    && (forall a, b :: Holds(s, a) && Holds(s, b) ==> a == b)
    && (s.busy <==> exists a :: Holds(s, a))
  }

  ghost predicate Inv(s: State) {
    && Registered(s.devices) && SingleFlight(s)
    && (forall i :: 0 <= i < |s.devices| ==> Sound(s.devices[i]))
    && (forall o :: 0 <= o < |s.ops| ==> OpSound(s, s.ops[o]))
  }

  /** Nothing but the identity bookkeeping of the records changed. */
  predicate SameNames(devices: seq<Device>, devices': seq<Device>) {
    && |devices| == |devices'|
    && forall i :: 0 <= i < |devices| ==> devices'[i].mac == devices[i].mac && devices'[i].id == devices[i].id
  }

  predicate AllSound(devices: seq<Device>) {
    forall i :: 0 <= i < |devices| ==> Sound(devices[i])
  }

  lemma {:induction false} AcceptKeepsSound(devices: seq<Device>, ids: seq<Identity>)
    requires AllSound(devices)
    ensures AllSound(AcceptAll(devices, ids)) && SameNames(devices, AcceptAll(devices, ids))
    decreases |ids|
  {
    if ids != [] {
      AcceptKeepsSound(devices, ids[..|ids| - 1]);
    }
  }

  lemma AcceptOneWorker(devices: seq<Device>, i: nat, id: Identity)
    requires Registered(devices) && i < |devices| && SameMac(id.mac, devices[i].mac)
    ensures AcceptAll(devices, [id])[i].identity == id
    ensures forall j :: 0 <= j < |devices| && j != i ==> AcceptAll(devices, [id])[j] == devices[j]
  {
    assert [id][..0] == [];
    assert AcceptAll(devices, [id]) == AcceptOne(devices, id);
  }

  lemma {:induction false} PickIsRegistered(answers: seq<Identity>, mac: string)
    ensures Pick(answers, mac).Some? ==> SameMac(Pick(answers, mac).value.mac, mac)
  {
    if answers != [] {
      PickIsRegistered(answers[1..], mac);
    }
  }

  lemma {:induction false} PickForControlIsRegistered(answers: seq<Identity>, mac: string, keys: set<string>)
    ensures var p := PickForControl(answers, mac, keys); p.Some? ==> p.value.mac == mac && p.value.key in keys
  {
    if answers != [] {
      PickForControlIsRegistered(answers[1..], mac, keys);
    }
  }

  /** An operation that stays under way, or the only one, moves on; the others are idle. */
  lemma AtKeepsInv(s: State, op: nat, next: Op)
    requires Inv(s) && op < |s.ops| && s.ops[op] != Idle && next != Idle && OpSound(s, next)
    ensures Inv(At(s, op, next))
  {
    var t := At(s, op, next);
    assert Holds(s, op) && Holds(t, op);
    assert forall a :: Holds(t, a) ==> Holds(s, a);
  }

  lemma OthersIdle(s: State, op: nat, o: nat)
    requires SingleFlight(s) && op < |s.ops| && s.ops[op] != Idle && o < |s.ops| && o != op
    ensures s.ops[o] == Idle
  {
    assert Holds(s, op);
    assert !Holds(s, o);
  }

  /** The one operation under way rewrites records and moves on. */
  lemma RewriteKeepsInv(s: State, op: nat, devices: seq<Device>, next: Op)
    requires Inv(s) && op < |s.ops| && s.ops[op] != Idle && next != Idle
    requires SameNames(s.devices, devices) && AllSound(devices)
    requires OpSound(s.(devices := devices), next)
    ensures Inv(At(s.(devices := devices), op, next))
  {
    var t := At(s.(devices := devices), op, next);
    assert Holds(s, op) && Holds(t, op);
    assert forall a :: Holds(t, a) ==> Holds(s, a);
    forall o | 0 <= o < |t.ops| ensures OpSound(t, t.ops[o]) {
      if o != op {
        OthersIdle(s, op, o);
      }
    }
  }

  lemma EnterKeepsInv(s: State, op: nat, next: Op)
    requires Inv(s) && op < |s.ops| && OpSound(s, next) && next != Idle
    ensures Inv(Enter(s, op, next))
  {
    var t := Enter(s, op, next);
    if t != s {
      assert Holds(t, op);
      assert forall a :: Holds(t, a) && a != op ==> Holds(s, a);
    }
  }

  lemma LeaveKeepsInv(s: State, op: nat)
    requires Inv(s) && op < |s.ops| && s.ops[op] == Leaving
    ensures Inv(At(s, op, Idle).(busy := false))
  {
    var t := At(s, op, Idle).(busy := false);
    assert Holds(s, op);
    assert forall a :: Holds(t, a) ==> Holds(s, a) && a != op;
  }

  lemma WorkerKeepsInv(s: State, op: nat, i: nat, devices: seq<Device>, w: Worker)
    requires Inv(s) && AtWorker(s, op, i) && SameNames(s.devices, devices) && AllSound(devices)
    requires WorkerSound(devices[i], w)
    requires forall j :: 0 <= j < |devices| && j != i ==> devices[j] == s.devices[j]
    ensures Inv(WithWorker(s.(devices := devices), op, i, w))
  {
    var next := s.ops[op].(work := s.ops[op].work[i := w]);
    assert OpSound(s, s.ops[op]);
    forall j | 0 <= j < |next.work| ensures WorkerSound(devices[j], next.work[j]) {
      assert WorkerSound(s.devices[j], s.ops[op].work[j]);
    }
    RewriteKeepsInv(s, op, devices, next);
  }

  lemma WorkerFailsKeepsInv(s: State, op: nat, i: nat, why: string, now: int)
    requires Inv(s) && AtWorker(s, op, i)
    ensures Inv(WithWorker(s.(devices := s.devices[i := FailedDevice(s.devices[i], why, now)]), op, i, Finished))
  {
    assert Sound(s.devices[i]);
    WorkerKeepsInv(s, op, i, s.devices[i := FailedDevice(s.devices[i], why, now)], Finished);
  }

  lemma WorkerMovesKeepsInv(s: State, op: nat, i: nat, w: Worker)
    requires Inv(s) && AtWorker(s, op, i) && WorkerSound(s.devices[i], w)
    ensures Inv(WithWorker(s, op, i, w))
  {
    WorkerKeepsInv(s, op, i, s.devices, w);
  }

  lemma WorkerProbesKeepsInv(s: State, op: nat, i: nat, a: Action)
    requires Inv(s) && AtWorker(s, op, i) && a.WorkerProbes?
    ensures Inv(WorkerNext(s, op, i, a))
  {
    assert OpSound(s, s.ops[op]);
    var pick := Pick(a.answers, s.ops[op].seen[i].mac);
    PickIsRegistered(a.answers, s.ops[op].seen[i].mac);
    WorkerFailsKeepsInv(s, op, i, "no answer", a.now);
    if pick.Some? { WorkerMovesKeepsInv(s, op, i, Chosen(pick.value)); }
  }

  lemma WorkerReadsKeepsInv(s: State, op: nat, i: nat, a: Action)
    requires Inv(s) && AtWorker(s, op, i) && a.WorkerReads?
    ensures Inv(WorkerNext(s, op, i, a))
  {
    var work := s.ops[op].work[i];
    assert OpSound(s, s.ops[op]) && WorkerSound(s.devices[i], work);
    WorkerFailsKeepsInv(s, op, i, "read failed", a.now);
    if work.Taken? && a.values.Some? && work.id.key != "" {
      WorkerMovesKeepsInv(s, op, i, HasRead(work.id, Reading(work.id, a.values.value)));
    }
  }

  lemma WorkerNextKeepsInv(s: State, op: nat, i: nat, a: Action)
    requires Inv(s) && AtWorker(s, op, i)
    ensures Inv(WorkerNext(s, op, i, a))
  {
    var work := s.ops[op].work[i];
    assert OpSound(s, s.ops[op]) && WorkerSound(s.devices[i], work);
    match a
    case WorkerProbes(_, _, _, _) =>
      WorkerProbesKeepsInv(s, op, i, a);
    case WorkerAccepts(_, _) =>
      if work.Chosen? {
        AcceptKeepsSound(s.devices, [work.id]);
        AcceptOneWorker(s.devices, i, work.id);
        WorkerKeepsInv(s, op, i, AcceptAll(s.devices, [work.id]), Taken(work.id));
      }
    case WorkerReads(_, _, _, _) =>
      WorkerReadsKeepsInv(s, op, i, a);
    case WorkerStores(_, _, now) =>
      if work.HasRead? {
        WorkerKeepsInv(s, op, i, s.devices[i := ReadDevice(s.devices[i], work.reading, now)], Finished);
      }
    case _ =>
  }

  lemma ControlKeepsInv(s: State, op: nat, a: Action)
    requires Inv(s) && op < |s.ops| && OfControl(a)
    ensures Inv(OpNext(s, op, a))
  {
    var o := s.ops[op];
    assert OpSound(s, o);
    match a
    case StartControl(_, index, keys) =>
      if index < |s.devices| {
        EnterKeepsInv(s, op, Probing(index, keys, Target(s.hosts, s.devices[index])));
      }
    case ControlProbes(_, answers) =>
      if o.Probing? {
        PickForControlIsRegistered(answers, s.devices[o.index].mac, o.keys);
        var pick := PickForControl(answers, s.devices[o.index].mac, o.keys);
        AtKeepsInv(s, op, if pick.None? then Leaving else Writing(o.index, pick.value));
      }
    case ControlWrites(_, values, now) =>
      if o.Writing? {
        assert Sound(s.devices[o.index]);
        RewriteKeepsInv(s, op, s.devices[o.index := FailedDevice(s.devices[o.index], "write failed", now)], Leaving);
        if values.Some? && o.id.key != "" {
          AtKeepsInv(s, op, Storing(o.index, o.id, Reading(o.id, values.value)));
        }
      }
    case ControlStores(_, now) =>
      if o.Storing? {
        RewriteKeepsInv(s, op, s.devices[o.index := ReadDevice(s.devices[o.index].(identity := o.id), o.reading, now)], Leaving);
      }
  }

  lemma RefreshKeepsInv(s: State, op: nat, a: Action)
    requires Inv(s) && op < |s.ops| && !OfControl(a)
    ensures Inv(OpNext(s, op, a))
  {
    var o := s.ops[op];
    assert OpSound(s, o);
    match a
    case StartRefresh(_, discover) => EnterKeepsInv(s, op, if discover then Discovering else Gathering);
    case NetworkAnswers(_, ids) => if o == Discovering { AtKeepsInv(s, op, Found(ids)); }
    case AcceptFound(_) =>
      if o.Found? {
        AcceptKeepsSound(s.devices, o.ids);
        RewriteKeepsInv(s, op, AcceptAll(s.devices, o.ids), Gathering);
      }
    case Gather(_) =>
      if o == Gathering {
        AtKeepsInv(s, op, Working(s.hosts, s.devices, seq(|s.devices|, _ => Fresh)));
      }
    case WorkersDone(_) => if o.Working? && AllFinished(o.work) { AtKeepsInv(s, op, Leaving); }
    case Leave(_) => if o == Leaving { LeaveKeepsInv(s, op); }
    case _ =>
  }

  lemma PutKeepsInv(s: State, hosts: Hosts)
    requires Inv(s) && !s.busy
    ensures Inv(s.(hosts := hosts, devices := Disconnected(s.devices)))
  {
    var t := s.(hosts := hosts, devices := Disconnected(s.devices));
    assert forall a :: Holds(t, a) <==> Holds(s, a);
    forall o | 0 <= o < |t.ops| ensures OpSound(t, t.ops[o]) {
      assert !Holds(s, o);
    }
    forall i | 0 <= i < |t.devices| ensures Sound(t.devices[i]) {
      assert Sound(s.devices[i]);
    }
  }

  predicate OfWorker(a: Action) {
    a.WorkerProbes? || a.WorkerAccepts? || a.WorkerReads? || a.WorkerStores?
  }

  predicate OfControl(a: Action) {
    a.StartControl? || a.ControlProbes? || a.ControlWrites? || a.ControlStores?
  }

  lemma NextKeepsInv(s: State, a: Action)
    requires Inv(s)
    ensures Inv(Next(s, a))
  {
    if a.PutSettings? {
      if !s.busy { PutKeepsInv(s, a.hosts); }
    } else if OfWorker(a) {
      if AtWorker(s, a.op, a.i) { WorkerNextKeepsInv(s, a.op, a.i, a); }
    } else if a.op < |s.ops| {
      if OfControl(a) {
        ControlKeepsInv(s, a.op, a);
      } else {
        RefreshKeepsInv(s, a.op, a);
      }
    }
  }

  // ---- main results ----

  function Blank(id: string, mac: string): Device {
    Device(id, mac, Identity("", "", ""), None, false, "", None, None)
  }

  /** The four devices every monitor is opened with. */
  function Shipped(): seq<Device> {
    [Blank("return-pump-1", "e8:db:84:f4:cb:4c"), Blank("wavemaker-1", "1c:db:d4:12:c7:88"),
     Blank("wavemaker-2", "88:56:a6:fc:e1:00"), Blank("wavemaker-3", "58:8c:81:64:c4:64")]
  }

  lemma FirstDiffers(a: string, b: string)
    requires a != "" && b != "" && FoldChar(a[0]) != FoldChar(b[0])
    ensures !SameMac(a, b)
  {
    assert Fold(a)[0] != Fold(b)[0];
  }

  lemma ShippedFirst(i: nat)
    requires i < 4
    ensures Shipped()[i].mac != "" && FoldChar(Shipped()[i].mac[0]) == "e185"[i]
  {
  }

  lemma ShippedAreRegistered(hosts: Hosts, n: nat)
    ensures Opened(State(Shipped(), hosts, false, seq(n, _ => Idle)))
  {
    forall i: nat, j: nat | i < j < 4 ensures !SameMac(Shipped()[i].mac, Shipped()[j].mac) {
      ShippedFirst(i);
      ShippedFirst(j);
      FirstDiffers(Shipped()[i].mac, Shipped()[j].mac);
    }
  }

  /** A monitor just opened: no identity known yet, nothing read, nobody at work. */
  predicate Opened(s: State) {
    && Registered(s.devices) && !s.busy
    && (forall i :: 0 <= i < |s.devices| ==> s.devices[i].attributes == None && s.devices[i].lastSuccess == None)
    && (forall o :: 0 <= o < |s.ops| ==> s.ops[o] == Idle)
  }

  lemma {:induction false} RunsKeepInv(s: State, actions: seq<Action>)
    requires Opened(s)
    ensures Inv(Run(s, actions))
    decreases |actions|
  {
    if actions == [] {
      assert forall a :: !Holds(s, a);
    } else {
      RunsKeepInv(s, actions[..|actions| - 1]);
      NextKeepsInv(Run(s, actions[..|actions| - 1]), actions[|actions| - 1]);
    }
  }

  /** In every interleaving at most one operation is in, and the records only hold attributes of their own device and product. */
  lemma MonitorIsSafe(s: State, actions: seq<Action>)
    requires Opened(s)
    ensures var t := Run(s, actions);
      && (forall a, b :: Holds(t, a) && Holds(t, b) ==> a == b)
      && (t.busy <==> exists a :: Holds(t, a))
      && forall i :: 0 <= i < |t.devices| && t.devices[i].attributes.Some? ==>
           var d := t.devices[i];
           SameMac(d.attributes.value.from.mac, d.mac) && d.attributes.value.from.key == d.identity.key
  {
    RunsKeepInv(s, actions);
    var t := Run(s, actions);
    forall i | 0 <= i < |t.devices| && t.devices[i].attributes.Some?
      ensures var d := t.devices[i];
        SameMac(d.attributes.value.from.mac, d.mac) && d.attributes.value.from.key == d.identity.key
    {
      assert Sound(t.devices[i]);
    }
  }

  /** The hosts change only while nobody is in, so a refresh works on the hosts as they are. */
  lemma HostsAreStable(s: State, actions: seq<Action>, a: Action)
    requires Opened(s)
    ensures var t := Run(s, actions);
      && (Next(t, a).hosts != t.hosts ==> !t.busy && forall o :: 0 <= o < |t.ops| ==> t.ops[o] == Idle)
      && forall o :: 0 <= o < |t.ops| && t.ops[o].Working? ==> t.ops[o].hosts == t.hosts
  {
    RunsKeepInv(s, actions);
    var t := Run(s, actions);
    forall o | 0 <= o < |t.ops| ensures t.ops[o].Working? ==> t.ops[o].hosts == t.hosts {
      assert OpSound(t, t.ops[o]);
    }
    if Next(t, a).hosts != t.hosts {
      assert a.PutSettings?;
      forall o | 0 <= o < |t.ops| ensures t.ops[o] == Idle {
        assert !Holds(t, o);
      }
    }
  }

  /** A device shown as fresh has attributes, read within the last ninety seconds. */
  lemma FreshMeansRead(s: State, actions: seq<Action>, i: nat, now: int)
    requires Opened(s) && i < |Run(s, actions).devices|
    ensures var d := Run(s, actions).devices[i];
      !Stale(d, now) ==> d.connected && d.attributes.Some? && d.lastSuccess.Some? && d.lastSuccess.value >= now - 90_000
  {
    RunsKeepInv(s, actions);
    assert Sound(Run(s, actions).devices[i]);
  }

  // ---- what an undisturbed operation achieves ----

  /** The first answer from the registered address is taken, unless it names no place to call. */
  lemma {:induction false} PickIsFirst(answers: seq<Identity>, mac: string, n: nat)
    requires n < |answers| && SameMac(answers[n].mac, mac) && forall i :: 0 <= i < n ==> !SameMac(answers[i].mac, mac)
    ensures Pick(answers, mac) == if answers[n].ip == "" then None else Some(answers[n])
  {
    if n > 0 { PickIsFirst(answers[1..], mac, n - 1); }
  }

  /** For a control the address must match to the letter, and the product key be a known one. */
  lemma {:induction false} PickForControlIsFirst(answers: seq<Identity>, mac: string, keys: set<string>, n: nat)
    requires n < |answers| && answers[n].mac == mac && answers[n].key in keys
    requires forall i :: 0 <= i < n ==> answers[i].mac != mac || answers[i].key !in keys
    ensures PickForControl(answers, mac, keys) == if answers[n].ip == "" then None else Some(answers[n])
  {
    if n > 0 { PickForControlIsFirst(answers[1..], mac, keys, n - 1); }
  }

  /** A goroutine whose device answers under a product key and is read stores the reading with that identity. */
  lemma WorkerStoresReading(s: State, op: nat, i: nat, answers: seq<Identity>, id: Identity, values: map<string, int>,
                            probed: int, read: int, now: int)
    requires AtWorker(s, op, i) && s.ops[op].work[i] == Fresh
    requires Target(s.ops[op].hosts, s.ops[op].seen[i]) != "" && Pick(answers, s.ops[op].seen[i].mac) == Some(id)
    requires SameMac(id.mac, s.devices[i].mac) && id.key != ""
    ensures var probing := Next(s, WorkerProbes(op, i, answers, probed));
      var accepted := Next(probing, WorkerAccepts(op, i));
      var holding := Next(accepted, WorkerReads(op, i, Some(values), read));
      var done := Next(holding, WorkerStores(op, i, now));
      && done.devices[i] == ReadDevice(s.devices[i].(identity := id), Reading(id, values), now)
      && done.ops[op].work[i] == Finished && !Stale(done.devices[i], now)
  {
    var probing := Next(s, WorkerProbes(op, i, answers, probed));
    assert probing == WithWorker(s, op, i, Chosen(id));
    var accepted := Next(probing, WorkerAccepts(op, i));
    OneAccepted(s.devices, id);
    assert accepted == WithWorker(probing.(devices := AcceptOne(s.devices, id)), op, i, Taken(id));
    var holding := Next(accepted, WorkerReads(op, i, Some(values), read));
    assert holding == WithWorker(accepted, op, i, HasRead(id, Reading(id, values)));
  }

  lemma OneAccepted(devices: seq<Device>, id: Identity)
    ensures AcceptAll(devices, [id]) == AcceptOne(devices, id)
  {
    assert [id][..0] == [];
    assert AcceptAll(devices, [id][..0]) == devices;
  }

  lemma ControlFindsDevice(s: State, op: nat, i: nat, keys: set<string>, answers: seq<Identity>, id: Identity)
    requires !s.busy && op < |s.ops| && s.ops[op] == Idle && i < |s.devices| && Target(s.hosts, s.devices[i]) != ""
    requires PickForControl(answers, s.devices[i].mac, keys) == Some(id)
    ensures Next(Next(s, StartControl(op, i, keys)), ControlProbes(op, answers))
         == s.(busy := true, ops := s.ops[op := Writing(i, id)])
  {
    var probing := Next(s, StartControl(op, i, keys));
    assert probing == s.(busy := true, ops := s.ops[op := Probing(i, keys, Target(s.hosts, s.devices[i]))]);
    assert probing.ops[op := Writing(i, id)] == s.ops[op := Writing(i, id)];
  }

  lemma ControlWritesAndStores(s: State, op: nat, i: nat, id: Identity, values: map<string, int>, written: int, now: int)
    requires op < |s.ops| && s.ops[op] == Writing(i, id) && i < |s.devices| && id.key != ""
    ensures Next(Next(s, ControlWrites(op, Some(values), written)), ControlStores(op, now))
         == s.(devices := s.devices[i := ReadDevice(s.devices[i].(identity := id), Reading(id, values), now)],
               ops := s.ops[op := Leaving])
  {
    var storing := Next(s, ControlWrites(op, Some(values), written));
    assert storing == s.(ops := s.ops[op := Storing(i, id, Reading(id, values))]);
    assert storing.ops[op := Leaving] == s.ops[op := Leaving];
  }

  /** A control that finds its device and writes to it stores the reading, and lets the next operation in. */
  lemma ControlStoresReading(s: State, op: nat, i: nat, keys: set<string>, answers: seq<Identity>, id: Identity,
                             values: map<string, int>, written: int, now: int)
    requires !s.busy && op < |s.ops| && s.ops[op] == Idle && i < |s.devices| && Target(s.hosts, s.devices[i]) != ""
    requires PickForControl(answers, s.devices[i].mac, keys) == Some(id) && id.key != ""
    ensures var writing := Next(Next(s, StartControl(op, i, keys)), ControlProbes(op, answers));
      var leaving := Next(Next(writing, ControlWrites(op, Some(values), written)), ControlStores(op, now));
      && writing.busy
      && Next(leaving, Leave(op)) ==
           s.(devices := s.devices[i := ReadDevice(s.devices[i].(identity := id), Reading(id, values), now)])
  {
    ControlFindsDevice(s, op, i, keys, answers, id);
    var writing := s.(busy := true, ops := s.ops[op := Writing(i, id)]);
    ControlWritesAndStores(writing, op, i, id, values, written, now);
    assert s.ops[op := Writing(i, id)][op := Leaving][op := Idle] == s.ops;
  }
}
