/**
 The three controls run over the write conversation (internal/jebao/control.go, feeding.go,
 flow.go): what a caller may conclude from a reported success.
 */
module JebaoControls {
  import opened Wrappers
  import opened Bytes
  import opened JebaoBits
  import opened JebaoAttributes
  import opened JebaoPayloads
  import opened JebaoTables
  import opened JebaoConversation

  // ---- the checks on the read-back ----

  predicate SpeedVerified(before: seq<Byte>, after: seq<Byte>, speed: int) {
    |before| > 1 && |after| > 1 && after[1] == speed && after[0] == before[0]
  }

  predicate FeedingVerified(before: seq<Byte>, after: seq<Byte>, enabled: bool) {
    && |before| > 0 && |after| > 0 && Bit(after[0], 2) == enabled
    && Bit(after[0], 0) == Bit(before[0], 0) && Bit(after[0], 1) == Bit(before[0], 1) && Bit(after[0], 3) == Bit(before[0], 3)
  }

  predicate FlowVerified(before: seq<Byte>, after: seq<Byte>, flow: int) {
    |before| > 2 && |after| > 2 && after[2] == flow && before[0] == after[0] && before[1] == after[1]
  }

  function SpeedWrite(speed: int): Payload {
    (before, token) => SpeedPayload(before, speed, token)
  }

  function SpeedCheck(speed: int): Verify {
    (before, after) => SpeedVerified(before, after, speed)
  }

  function FeedingWrite(enabled: bool): Payload {
    (before, token) => FeedingPayload(before, enabled, token)
  }

  function FeedingCheck(enabled: bool): Verify {
    (before, after) => FeedingVerified(before, after, enabled)
  }

  function FlowWrite(key: string, flow: int): Payload {
    (before, token) => FlowPayload(FlowTables(), key, before, flow, token)
  }

  function FlowCheck(flow: int): Verify {
    (before, after) => FlowVerified(before, after, flow)
  }

  function SetSpeed(l: Link, speed: int, token: Option<Token>): (Result<Attributes, Failure>, Link) {
    Converse(l, Mdp(), 302, SpeedWrite(speed), SpeedCheck(speed), token)
  }

  function SetFeeding(l: Link, enabled: bool, token: Option<Token>): (Result<Attributes, Failure>, Link) {
    Converse(l, Mdp(), 302, FeedingWrite(enabled), FeedingCheck(enabled), token)
  }

  /** The product key is one of the two known wavemakers; for another one nothing is sent. */
  function SetFlow(l: Link, key: string, flow: int, token: Option<Token>): (Result<Attributes, Failure>, Link)
    requires FlowModel(key).Some?
  {
    Converse(l, FlowTables()[key], FlowModel(key).value.size, FlowWrite(key, flow), FlowCheck(flow), token)
  }

  // ---- what success reports ----

  /** Attributes read from bytes that did not change decode to the same values. */
  lemma SameBytesSameValue(m: Model, s: nat, before: seq<Byte>, after: seq<Byte>)
    requires s < |m| && Decoded(m[s]) && NamedOnce(m, s) && Decode(m, before).Ok? && Decode(m, after).Ok?
    requires var (lo, hi) := Span(m[s], GroupBytes(m));
      0 <= lo <= hi <= |before| && hi <= |after| ==> before[lo..hi] == after[lo..hi]
    ensures Lookup(Decode(m, before).value, m[s].name) == Lookup(Decode(m, after).value, m[s].name)
    ensures Lookup(Decode(m, before).value, m[s].name).Some?
  {
    DecodeReads(m, s, before);
    DecodeReads(m, s, after);
  }

  lemma ByteValue(m: Model, s: nat, data: seq<Byte>)
    requires s < |m| && m[s].kind == Uint8 && NamedOnce(m, s) && Decode(m, data).Ok?
    ensures 0 <= m[s].byteOffset < |data|
    ensures Lookup(Decode(m, data).value, m[s].name) == Some(Number(data[m[s].byteOffset]))
  {
    DecodeReads(m, s, data);
    var at := m[s].byteOffset;
    assert data[at..at + 1] == [data[at]];
    assert BigEndian([data[at]]) == data[at];
  }

  lemma FlagReads(m: Model, s: nat, data: seq<Byte>)
    requires s < |m| && s < 8 && NamedOnce(m, s) && m[s] == FlagAt(m[s].name, 0, s)
    requires GroupBytes(m) == 1 && Decode(m, data).Ok? && |data| >= 1
    ensures Lookup(Decode(m, data).value, m[s].name) == Some(Flag(Bit(data[0], s)))
  {
    DecodeReads(m, s, data);
    BoolReading(m[s], data);
  }

  /** The attributes of a pump that the controls rely on. */
  predicate PumpTable(m: Model) {
    && GroupBytes(m) == 1 && |m| > 5
    && m[0] == FlagAt("SwitchON", 0, 0) && NamedOnce(m, 0)
    && m[1] == FlagAt("Mode", 0, 1) && NamedOnce(m, 1)
    && m[2] == FlagAt("FeedSwitch", 0, 2) && NamedOnce(m, 2)
    && m[3] == FlagAt("TimerON", 0, 3) && NamedOnce(m, 3)
    && m[5] == ByteAt("Motor_Speed", 1) && NamedOnce(m, 5)
  }

  lemma MdpIsPumpTable()
    ensures PumpTable(Mdp())
  {
    MdpTable();
    MdpNames();
  }

  predicate SameBits(a: Byte, b: Byte) {
    forall j :: 0 <= j < 8 ==> Bit(a, j) == Bit(b, j)
  }

  lemma SameBitsAreSame(a: Byte, b: Byte)
    ensures SameBits(a, b) <==> a == b
  {
    if SameBits(a, b) { SameBitsSameByte(a, b); }
  }

  /** A speed read-back passes exactly when it decodes to the speed and no bit of the flags changed. */
  lemma SpeedCheckIsDecoded(m: Model, before: seq<Byte>, after: seq<Byte>, speed: int)
    requires PumpTable(m) && |before| == |after| > 1 && Decode(m, after).Ok?
    ensures SpeedVerified(before, after, speed) <==>
      speed >= 0 && Lookup(Decode(m, after).value, "Motor_Speed") == Some(Number(speed)) && SameBits(before[0], after[0])
  {
    ByteValue(m, 5, after);
    SameBitsAreSame(before[0], after[0]);
  }

  /** A feeding read-back passes exactly when the switch decodes as asked and the other three flags as before. */
  lemma FeedingCheckIsDecoded(m: Model, before: seq<Byte>, after: seq<Byte>, enabled: bool)
    requires PumpTable(m) && |before| == |after| >= 1 && Decode(m, before).Ok? && Decode(m, after).Ok?
    ensures var attrs, was := Decode(m, after).value, Decode(m, before).value;
      FeedingVerified(before, after, enabled) <==>
      Lookup(attrs, "FeedSwitch") == Some(Flag(enabled))
      && Lookup(attrs, "SwitchON") == Lookup(was, "SwitchON") && Lookup(attrs, "Mode") == Lookup(was, "Mode")
      && Lookup(attrs, "TimerON") == Lookup(was, "TimerON")
  {
    FourFlagsRead(m, before);
    FourFlagsRead(m, after);
  }

  lemma FourFlagsRead(m: Model, data: seq<Byte>)
    requires PumpTable(m) && |data| >= 1 && Decode(m, data).Ok?
    ensures var attrs := Decode(m, data).value;
      && Lookup(attrs, "SwitchON") == Some(Flag(Bit(data[0], 0))) && Lookup(attrs, "Mode") == Some(Flag(Bit(data[0], 1)))
      && Lookup(attrs, "FeedSwitch") == Some(Flag(Bit(data[0], 2))) && Lookup(attrs, "TimerON") == Some(Flag(Bit(data[0], 3)))
  {
    FlagReads(m, 0, data);
    FlagReads(m, 1, data);
    FlagReads(m, 2, data);
    FlagReads(m, 3, data);
  }

  /** A flow read-back passes exactly when it decodes to the flow and no bit of the first two bytes changed. */
  lemma FlowCheckIsDecoded(m: Model, f: nat, before: seq<Byte>, after: seq<Byte>, flow: int)
    requires f < |m| && NamedOnce(m, f) && m[f] == ByteAt("Flow", 2) && |before| == |after| > 2 && Decode(m, after).Ok?
    ensures FlowVerified(before, after, flow) <==>
      flow >= 0 && Lookup(Decode(m, after).value, "Flow") == Some(Number(flow))
      && SameBits(before[0], after[0]) && SameBits(before[1], after[1])
  {
    ByteValue(m, f, after);
    SameBitsAreSame(before[0], after[0]);
    SameBitsAreSame(before[1], after[1]);
  }

  lemma SpeedOutcome(m: Model, before: seq<Byte>, after: seq<Byte>, speed: int, token: Token)
    requires PumpTable(m) && Decode(m, after).Ok?
    requires SpeedPayload(before, speed, token).Ok? && SpeedVerified(before, after, speed)
    ensures var attrs := Decode(m, after).value;
      && Lookup(attrs, "Motor_Speed") == Some(Number(speed))
      && Lookup(attrs, "SwitchON") == Some(Flag(true))
      && Lookup(attrs, "FeedSwitch") == Some(Flag(false))
      && Lookup(attrs, "TimerON") == Some(Flag(false))
  {
    ByteValue(m, 5, after);
    FlagReads(m, 0, after);
    FlagReads(m, 2, after);
    FlagReads(m, 3, after);
  }

  /** A reported speed change: the pump runs at the asked speed, and is on, not feeding and not scheduled. */
  lemma SpeedSuccess(l: Link, speed: int, token: Token)
    requires SetSpeed(l, speed, Some(token)).0.Ok?
    ensures var attrs := SetSpeed(l, speed, Some(token)).0.value;
      && 1 <= speed <= 100
      && Lookup(attrs, "Motor_Speed") == Some(Number(speed))
      && Lookup(attrs, "SwitchON") == Some(Flag(true))
      && Lookup(attrs, "FeedSwitch") == Some(Flag(false))
      && Lookup(attrs, "TimerON") == Some(Flag(false))
  {
    MdpIsPumpTable();
    var before, after := SuccessPair(l, Mdp(), 302, SpeedWrite(speed), SpeedCheck(speed), token);
    SpeedOutcome(Mdp(), before, after, speed, token);
  }

  lemma FeedingOutcome(m: Model, before: seq<Byte>, after: seq<Byte>, enabled: bool, token: Token)
    requires PumpTable(m) && Decode(m, before).Ok? && Decode(m, after).Ok?
    requires FeedingPayload(before, enabled, token).Ok? && FeedingVerified(before, after, enabled)
    ensures var attrs, was := Decode(m, after).value, Decode(m, before).value;
      && Lookup(attrs, "FeedSwitch") == Some(Flag(enabled))
      && Lookup(attrs, "SwitchON") == Lookup(was, "SwitchON")
      && Lookup(attrs, "TimerON") == Lookup(was, "TimerON")
      && (enabled ==> Lookup(attrs, "SwitchON") == Some(Flag(true)) && Lookup(attrs, "TimerON") == Some(Flag(false)))
  {
    FlagReads(m, 0, before);
    FlagReads(m, 3, before);
    FlagReads(m, 0, after);
    FlagReads(m, 2, after);
    FlagReads(m, 3, after);
  }

  /** A reported feeding change: the switch is as asked, and power and timer are as they were read. */
  lemma FeedingSuccess(l: Link, enabled: bool, token: Token)
    requires SetFeeding(l, enabled, Some(token)).0.Ok?
    ensures StatusHeard(l, 302).Some? && Decode(Mdp(), StatusHeard(l, 302).value).Ok?
    ensures var attrs, was := SetFeeding(l, enabled, Some(token)).0.value, Decode(Mdp(), StatusHeard(l, 302).value).value;
      && Lookup(attrs, "FeedSwitch") == Some(Flag(enabled))
      && Lookup(attrs, "SwitchON") == Lookup(was, "SwitchON")
      && Lookup(attrs, "TimerON") == Lookup(was, "TimerON")
      && (enabled ==> Lookup(attrs, "SwitchON") == Some(Flag(true)) && Lookup(attrs, "TimerON") == Some(Flag(false)))
  {
    MdpIsPumpTable();
    var before, after := SuccessPair(l, Mdp(), 302, FeedingWrite(enabled), FeedingCheck(enabled), token);
    PumpWritesOneAttribute(before, 0, enabled, token);
    FeedingOutcome(Mdp(), before, after, enabled, token);
  }

  /** The attributes held in the first two bytes. */
  predicate InFirstTwoBytes(m: Model, s: nat)
    requires s < |m|
  {
    Decoded(m[s]) && NamedOnce(m, s) && Span(m[s], GroupBytes(m)).1 <= 2
  }

  lemma FlowReadBack(m: Model, f: nat, before: seq<Byte>, after: seq<Byte>, flow: int, s: nat)
    requires f < |m| && NamedOnce(m, f) && m[f] == ByteAt("Flow", 2) && s < |m| && InFirstTwoBytes(m, s)
    requires |before| == |after| && Decode(m, before).Ok? && Decode(m, after).Ok? && FlowVerified(before, after, flow)
    ensures Lookup(Decode(m, after).value, "Flow") == Some(Number(flow))
    ensures Lookup(Decode(m, after).value, m[s].name) == Lookup(Decode(m, before).value, m[s].name)
  {
    ByteValue(m, f, after);
    SameBytesSameValue(m, s, before, after);
  }

  lemma FlowTable(key: string)
    requires FlowModel(key).Some?
    ensures var m, f := FlowTables()[key], FlowModel(key).value.flag;
      f < |m| && NamedOnce(m, f) && m[f] == ByteAt("Flow", 2)
  {
    GmpTable();
    DlwTable();
    FlowNames();
  }

  /** A reported flow change: the flow is as asked, and every attribute in the first two bytes is as it was. */
  lemma FlowSuccess(l: Link, key: string, flow: int, token: Token, s: nat)
    requires FlowModel(key).Some? && SetFlow(l, key, flow, Some(token)).0.Ok?
    requires s < |FlowTables()[key]| && InFirstTwoBytes(FlowTables()[key], s)
    ensures var status := StatusHeard(l, FlowModel(key).value.size);
      status.Some? && Decode(FlowTables()[key], status.value).Ok?
    ensures var m := FlowTables()[key];
      var attrs := SetFlow(l, key, flow, Some(token)).0.value;
      var was := Decode(m, StatusHeard(l, FlowModel(key).value.size).value).value;
      && FlowRefusal(key, was).None?
      && Lookup(attrs, "Flow") == Some(Number(flow))
      && Lookup(attrs, m[s].name) == Lookup(was, m[s].name)
  {
    var before, after := SuccessPair(l, FlowTables()[key], FlowModel(key).value.size, FlowWrite(key, flow), FlowCheck(flow), token);
    FlowTable(key);
    FlowReadBack(FlowTables()[key], FlowModel(key).value.flag, before, after, flow, s);
  }
}
