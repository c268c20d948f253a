/**
 The three writes a JEBAO device accepts: pump speed, feeding and wavemaker flow
 (internal/jebao/control.go, feeding.go, flow.go). Each message carries a 64-bit set of attribute
 numbers and the writable bytes of the status just read, with one attribute changed.
 */
module JebaoPayloads {
  import opened Wrappers
  import opened Bytes
  import opened JebaoBits
  import opened JebaoAttributes

  datatype PayloadError = Unsupported | SwitchedOff | Busy | Undecodable | Linked

  /** Eight bytes in which only bit id, counted from the right, is set. */
  function Flags(id: nat): (f: seq<Byte>)
    requires id < 64
    ensures |f| == 8
    ensures forall i :: 0 <= i < 8 ==> f[i] == if i == 7 - id / 8 then OneBit(id % 8) else 0
  {
    seq(8, i => FlagByte(id, i))
  }

  function FlagByte(id: nat, i: int): Byte
    requires id < 64
  {
    if i == 7 - id / 8 then OneBit(id % 8) else 0
  }

  function OneBit(k: nat): Byte
    requires k < 8
  {
    Pow2Monotone(k, 7);
    Pow2(k)
  }

  lemma {:induction false} Pow2Monotone(a: nat, b: nat)
    requires a <= b
    ensures Pow2(a) <= Pow2(b)
    ensures b == 7 ==> Pow2(b) == 128
  {
    if b == 7 {
      assert Pow2(2) == 4 && Pow2(4) == 16 && Pow2(6) == 64;
    }
    if a < b {
      Pow2Monotone(a, b - 1);
    }
  }

  /** What the device receives: the token to echo, the action, the attribute set, the values. */
  function Message(token: seq<Byte>, id: nat, values: seq<Byte>): seq<Byte>
    requires id < 64
  {
    token + [1] + Flags(id) + values
  }

  method BuildMessage(token: seq<Byte>, id: nat, values: seq<Byte>) returns (p: seq<Byte>)
    requires id < 64
    ensures p == Message(token, id, values)
  {
    var flags := new Byte[8](_ => 0);
    flags[7 - id / 8] := OneBit(id % 8);
    p := token + [1];
    p := p + flags[..];
    p := p + values;
  }

  /** The attribute set names attribute id and no other. */
  lemma FlagsArePower(id: nat)
    requires id < 64
    ensures BigEndian(Flags(id)) == Pow2(id)
  {
    var at := 7 - id / 8;
    OneByteAmongZeros(Flags(id), at);
    Pow2Adds(id % 8, 8 * (id / 8));
  }

  // ---- speed ----

  function SpeedPayload(before: seq<Byte>, speed: int, token: seq<Byte>): Result<seq<Byte>, PayloadError> {
    if |before| != 302 || |token| != 4 || speed < 1 || speed > 100 then Err(Unsupported)
    else if !Bit(before[0], 0) then Err(SwitchedOff)
    else if Bit(before[0], 2) || Bit(before[0], 3) then Err(Busy)
    else Ok(Message(token, 5, before[..301][1 := speed]))
  }

  method BuildSpeed(before: seq<Byte>, speed: int, token: seq<Byte>) returns (r: Result<seq<Byte>, PayloadError>)
    ensures r == SpeedPayload(before, speed, token)
  {
    if |before| != 302 || |token| != 4 || speed < 1 || speed > 100 { return Err(Unsupported); }
    if !Bit(before[0], 0) { return Err(SwitchedOff); }
    if Bit(before[0], 2) || Bit(before[0], 3) { return Err(Busy); }
    var values := new Byte[301](i requires 0 <= i < 301 => before[i]);
    values[1] := speed;
    assert values[..] == before[..301][1 := speed];
    var p := BuildMessage(token, 5, values[..]);
    return Ok(p);
  }

  // ---- feeding ----

  /** Bit 2 or'ed in, or cleared. */
  function FeedByte(b: Byte, on: bool): Byte {
    FourFits(b);
    if on == Bit(b, 2) then b else if on then b + 4 else b - 4
  }

  lemma FourFits(b: Byte)
    ensures !Bit(b, 2) ==> b + 4 < 256
    ensures Bit(b, 2) ==> b >= 4
  {
    assert Shr(b, 2) == Shr(b / 2, 1) == Shr(b / 2 / 2, 0);
  }

  /** Adding or subtracting the weight sets or clears the bit. */
  lemma FeedByteSetsBit(b: Byte, on: bool)
    ensures FeedByte(b, on) == SetBit(b, 2, on)
  {
    SetBitAddsItsWeight(b, 2, on);
    assert Pow2(2) == 4;
  }

  function FeedingPayload(before: seq<Byte>, enabled: bool, token: seq<Byte>): Result<seq<Byte>, PayloadError> {
    if |before| != 302 || |token| != 4 then Err(Unsupported)
    else if enabled && !Bit(before[0], 0) then Err(SwitchedOff)
    else if enabled && Bit(before[0], 3) then Err(Busy)
    else Ok(Message(token, 2, before[..301][0 := FeedByte(before[0], enabled)]))
  }

  method BuildFeeding(before: seq<Byte>, enabled: bool, token: seq<Byte>) returns (r: Result<seq<Byte>, PayloadError>)
    ensures r == FeedingPayload(before, enabled, token)
  {
    if |before| != 302 || |token| != 4 { return Err(Unsupported); }
    if enabled && !Bit(before[0], 0) { return Err(SwitchedOff); }
    if enabled && Bit(before[0], 3) { return Err(Busy); }
    var values := new Byte[301](i requires 0 <= i < 301 => before[i]);
    values[0] := FeedByte(values[0], enabled);
    assert values[..] == before[..301][0 := FeedByte(before[0], enabled)];
    var p := BuildMessage(token, 2, values[..]);
    return Ok(p);
  }

  // ---- flow ----

  datatype FlowSpec = FlowSpec(size: nat, end: nat, flag: nat)

  const GMP_KEY := "50dbc92221fd4d33ae69a1fedd43b555"
  const DLW_KEY := "54114ccdac1e41c0bb17e222887c07ba"

  function FlowModel(key: string): Option<FlowSpec> {
    if key == GMP_KEY then Some(FlowSpec(452, 451, 4))
    else if key == DLW_KEY then Some(FlowSpec(401, 400, 8))
    else None
  }

  function Lookup(attrs: Attributes, name: string): Option<Value> {
    if name in attrs then Some(attrs[name]) else None
  }

  /** Why the decoded status forbids a flow change, if it does. */
  function FlowRefusal(key: string, attrs: Attributes): Option<PayloadError> {
    if Lookup(attrs, "SwitchON") != Some(Flag(true)) then Some(SwitchedOff)
    else if Lookup(attrs, "TimerON") == Some(Flag(true)) then Some(Busy)
    else if Lookup(attrs, "FeedSwitch") == Some(Flag(true)) then Some(Busy)
    else if key == GMP_KEY && Lookup(attrs, "Mode") == Some(Number(7)) then Some(Busy)
    else if Lookup(attrs, "Linkage") != Some(Number(0)) then Some(Linked)
    else None
  }

  /** models: the table loaded by product key. */
  function FlowPayload(models: map<string, Model>, key: string, before: seq<Byte>, flow: int, token: seq<Byte>):
      Result<seq<Byte>, PayloadError>
  {
    var spec := FlowModel(key);
    if spec.None? || |before| != spec.value.size || |token| != 4 || flow < 1 || flow > 100 then Err(Unsupported)
    else if key !in models then Err(Undecodable)
    else
      var attrs := Decode(models[key], before);
      if attrs.Err? then Err(Undecodable)
      else
        var refusal := FlowRefusal(key, attrs.value);
        if refusal.Some? then Err(refusal.value)
        else Ok(Message(token, spec.value.flag, before[..spec.value.end][2 := flow]))
  }

  method BuildFlow(models: map<string, Model>, key: string, before: seq<Byte>, flow: int, token: seq<Byte>)
    returns (r: Result<seq<Byte>, PayloadError>)
    ensures r == FlowPayload(models, key, before, flow, token)
  {
    var spec := FlowModel(key);
    if spec.None? || |before| != spec.value.size || |token| != 4 || flow < 1 || flow > 100 { return Err(Unsupported); }
    if key !in models { return Err(Undecodable); }
    var attrs := DecodeStatus(models[key], before);
    if attrs.Err? { return Err(Undecodable); }
    var refusal := FlowRefusal(key, attrs.value);
    if refusal.Some? { return Err(refusal.value); }
    var end := spec.value.end;
    var values := new Byte[end](i requires 0 <= i < end => before[i]);
    values[2] := flow;
    assert values[..] == before[..end][2 := flow];
    var p := BuildMessage(token, spec.value.flag, values[..]);
    return Ok(p);
  }

  // ---- main results: a write changes one attribute ----

  /** The status the device is told to hold: the values sent, and the read-only bytes after them. */
  function Told(payload: seq<Byte>, before: seq<Byte>, end: nat): seq<Byte>
    requires |payload| >= 13 && end <= |before|
  {
    payload[13..] + before[end..]
  }

  lemma MessageParts(token: seq<Byte>, id: nat, values: seq<Byte>)
    requires id < 64 && |token| == 4
    ensures var p := Message(token, id, values);
      |p| == 13 + |values| && p[..4] == token && p[4] == 1 && p[5..13] == Flags(id) && p[13..] == values
  {
  }

  /** A whole byte that is one attribute. */
  lemma ByteWrite(m: Model, s: nat, before: seq<Byte>, at: nat, v: Byte)
    requires WellFormed(m) && s < |m| && NamedOnce(m, s) && Decode(m, before).Ok?
    requires m[s].kind == Uint8 && m[s].byteOffset == at < |before|
    ensures Decode(m, before[at := v]) == Ok(Decode(m, before).value[m[s].name := Number(v)])
  {
    var after := before[at := v];
    OneAttributeChanges(m, s, before, after);
    assert after[at..at + 1] == [v];
    assert BigEndian([v]) == v;
  }

  lemma BoolReading(a: Attribute, data: seq<Byte>)
    requires a.kind == Bool && a.inBits && a.byteOffset == 0 && 0 <= a.bitOffset < 8 && a.length == 1 && |data| >= 1
    ensures Positioned(a) && InBounds(a, 1, |data|)
    ensures Reading(a, 1, data) == Flag(Bit(data[0], a.bitOffset))
  {
    assert data[0..1] == [data[0]];
    assert BigEndian([data[0]]) == data[0];
    var x := Shr(data[0], a.bitOffset);
    assert Low(x, 1) == x % 2;
  }

  /** One bit of a one-byte group that is one attribute. */
  lemma BitWrite(m: Model, s: nat, before: seq<Byte>, b: Byte, on: bool)
    requires WellFormed(m) && s < |m| && NamedOnce(m, s) && Decode(m, before).Ok? && GroupBytes(m) == 1
    requires m[s].kind == Bool && m[s].byteOffset == 0 && m[s].bitOffset < 8 && m[s].length == 1
    requires |before| >= 1 && b == SetBit(before[0], m[s].bitOffset, on)
    ensures Decode(m, before[0 := b]) == Ok(Decode(m, before).value[m[s].name := Flag(on)])
  {
    var after := before[0 := b];
    var k := m[s].bitOffset;
    assert Positioned(m[s]) && Sized(m[s]);
    forall at, bit | 0 <= at < |before| && 0 <= bit < 8 && !Owns(m[s], 1, at, bit)
      ensures AgreeAt(before, after, at, bit)
    {
      if at == 0 {
        SetBitReplacesOneBit(before[0], k, on, bit);
      }
    }
    OneAttributeChanges(m, s, before, after);
    BoolReading(m[s], after);
    SetBitReplacesOneBit(before[0], k, on, k);
  }

  lemma SpeedChangesOnlySpeed(m: Model, before: seq<Byte>, speed: int, token: seq<Byte>)
    requires WellFormed(m) && |m| > 5 && NamedOnce(m, 5) && m[5] == Attribute("Motor_Speed", Uint8, false, 1, 0, 1)
    requires Decode(m, before).Ok? && SpeedPayload(before, speed, token).Ok?
    ensures var p := SpeedPayload(before, speed, token).value;
      && |p| == 314 && p[..4] == token && p[4] == 1 && BigEndian(p[5..13]) == Pow2(5)
      && Decode(m, Told(p, before, 301)) == Ok(Decode(m, before).value["Motor_Speed" := Number(speed)])
  {
    var p := SpeedPayload(before, speed, token).value;
    MessageParts(token, 5, before[..301][1 := speed]);
    FlagsArePower(5);
    assert Told(p, before, 301) == before[1 := speed];
    ByteWrite(m, 5, before, 1, speed);
  }

  lemma FeedingChangesOnlyFeedSwitch(m: Model, before: seq<Byte>, enabled: bool, token: seq<Byte>)
    requires WellFormed(m) && |m| > 2 && NamedOnce(m, 2) && m[2] == Attribute("FeedSwitch", Bool, true, 0, 2, 1)
    requires GroupBytes(m) == 1 && Decode(m, before).Ok? && FeedingPayload(before, enabled, token).Ok?
    ensures var p := FeedingPayload(before, enabled, token).value;
      && |p| == 314 && p[..4] == token && p[4] == 1 && BigEndian(p[5..13]) == Pow2(2)
      && Decode(m, Told(p, before, 301)) == Ok(Decode(m, before).value["FeedSwitch" := Flag(enabled)])
  {
    var p := FeedingPayload(before, enabled, token).value;
    var b := FeedByte(before[0], enabled);
    FeedByteSetsBit(before[0], enabled);
    MessageParts(token, 2, before[..301][0 := b]);
    FlagsArePower(2);
    assert Told(p, before, 301) == before[0 := b];
    BitWrite(m, 2, before, b, enabled);
  }

  lemma FlowChangesOnlyFlow(models: map<string, Model>, key: string, before: seq<Byte>, flow: int, token: seq<Byte>)
    requires FlowPayload(models, key, before, flow, token).Ok?
    requires var spec, m := FlowModel(key).value, models[key];
      WellFormed(m) && |m| > spec.flag && NamedOnce(m, spec.flag) && m[spec.flag] == Attribute("Flow", Uint8, false, 2, 0, 1)
    ensures var p, spec, m := FlowPayload(models, key, before, flow, token).value, FlowModel(key).value, models[key];
      && |p| == 13 + spec.end && p[..4] == token && p[4] == 1 && BigEndian(p[5..13]) == Pow2(spec.flag)
      && Decode(m, before).Ok?
      && Decode(m, Told(p, before, spec.end)) == Ok(Decode(m, before).value["Flow" := Number(flow)])
  {
    var p, spec := FlowPayload(models, key, before, flow, token).value, FlowModel(key).value;
    MessageParts(token, spec.flag, before[..spec.end][2 := flow]);
    FlagsArePower(spec.flag);
    assert Told(p, before, spec.end) == before[2 := flow];
    ByteWrite(models[key], spec.flag, before, 2, flow);
  }

  /** The masks tested on the raw status are the decoded switch, feeding and timer flags. */
  lemma SpeedGuardIsDecoded(m: Model, before: seq<Byte>, speed: int, token: seq<Byte>)
    requires WellFormed(m) && |m| > 3 && GroupBytes(m) == 1 && Decode(m, before).Ok?
    requires NamedOnce(m, 0) && m[0] == Attribute("SwitchON", Bool, true, 0, 0, 1)
    requires NamedOnce(m, 2) && m[2] == Attribute("FeedSwitch", Bool, true, 0, 2, 1)
    requires NamedOnce(m, 3) && m[3] == Attribute("TimerON", Bool, true, 0, 3, 1)
    ensures var attrs := Decode(m, before).value;
      SpeedPayload(before, speed, token).Ok? <==>
      (|before| == 302 && |token| == 4 && 1 <= speed <= 100
      && Lookup(attrs, "SwitchON") == Some(Flag(true))
      && Lookup(attrs, "FeedSwitch") == Some(Flag(false)) && Lookup(attrs, "TimerON") == Some(Flag(false)))
  {
    DecodeReads(m, 0, before);
    PumpFlagsRead(m, before);
  }

  /** What a pump's status says of switch, feeding and timer, in whatever order the guards look. */
  predicate PumpFlags(m: Model) {
    && |m| > 3 && GroupBytes(m) == 1
    && NamedOnce(m, 0) && m[0] == Attribute("SwitchON", Bool, true, 0, 0, 1)
    && NamedOnce(m, 2) && m[2] == Attribute("FeedSwitch", Bool, true, 0, 2, 1)
    && NamedOnce(m, 3) && m[3] == Attribute("TimerON", Bool, true, 0, 3, 1)
  }

  lemma PumpFlagsRead(m: Model, before: seq<Byte>)
    requires PumpFlags(m) && Decode(m, before).Ok? && |before| >= 1
    ensures var attrs := Decode(m, before).value;
      && Lookup(attrs, "SwitchON") == Some(Flag(Bit(before[0], 0)))
      && Lookup(attrs, "FeedSwitch") == Some(Flag(Bit(before[0], 2)))
      && Lookup(attrs, "TimerON") == Some(Flag(Bit(before[0], 3)))
  {
    DecodeReads(m, 0, before);
    DecodeReads(m, 2, before);
    DecodeReads(m, 3, before);
    BoolReading(m[0], before);
    BoolReading(m[2], before);
    BoolReading(m[3], before);
  }

  /** Feeding may always be stopped, and may be started exactly when the pump is on and not scheduled; why it may not otherwise. */
  lemma FeedingGuardIsDecoded(m: Model, before: seq<Byte>, enabled: bool, token: seq<Byte>)
    requires PumpFlags(m) && Decode(m, before).Ok? && |before| == 302 && |token| == 4
    ensures var attrs, r := Decode(m, before).value, FeedingPayload(before, enabled, token);
      && (!enabled ==> r.Ok?)
      && (enabled ==>
            && (r == Err(SwitchedOff) <==> Lookup(attrs, "SwitchON") == Some(Flag(false)))
            && (r == Err(Busy) <==> Lookup(attrs, "SwitchON") == Some(Flag(true)) && Lookup(attrs, "TimerON") == Some(Flag(true)))
            && (r.Ok? <==> Lookup(attrs, "SwitchON") == Some(Flag(true)) && Lookup(attrs, "TimerON") == Some(Flag(false))))
  {
    PumpFlagsRead(m, before);
  }

  /** A status or a token of another length is not supported. */
  lemma LengthsAreChecked(before: seq<Byte>, speed: int, enabled: bool, token: seq<Byte>)
    ensures FeedingPayload(before, enabled, token) == Err(Unsupported) <==> |before| != 302 || |token| != 4
    ensures SpeedPayload(before, speed, token) == Err(Unsupported) <==> |before| != 302 || |token| != 4 || speed <= 0 || 100 < speed
  {
  }

  /** Why a speed is refused: an unsupported request, a pump that is off, or one that feeds or is scheduled. */
  lemma SpeedRefusals(m: Model, before: seq<Byte>, speed: int, token: seq<Byte>)
    requires PumpFlags(m) && Decode(m, before).Ok? && |before| == 302 && |token| == 4 && 1 <= speed <= 100
    ensures var attrs, r := Decode(m, before).value, SpeedPayload(before, speed, token);
      && (r == Err(SwitchedOff) <==> Lookup(attrs, "SwitchON") == Some(Flag(false)))
      && (r == Err(Busy) <==>
            Lookup(attrs, "SwitchON") == Some(Flag(true))
            && (Lookup(attrs, "FeedSwitch") == Some(Flag(true)) || Lookup(attrs, "TimerON") == Some(Flag(true))))
  {
    PumpFlagsRead(m, before);
  }

  /** The messages of the two wavemakers have 464 and 413 bytes and name attributes 4 and 8. */
  lemma FlowMessages(models: map<string, Model>, key: string, before: seq<Byte>, flow: int, token: seq<Byte>)
    requires FlowPayload(models, key, before, flow, token).Ok?
    ensures var p := FlowPayload(models, key, before, flow, token).value;
      || (key == GMP_KEY && |before| == 452 && |p| == 464 && p[..5] == token + [1]
          && p[5..13] == [0, 0, 0, 0, 0, 0, 0, 16] && p[13..] == before[..2] + [flow] + before[3..451])
      || (key == DLW_KEY && |before| == 401 && |p| == 413 && p[..5] == token + [1]
          && p[5..13] == [0, 0, 0, 0, 0, 0, 1, 0] && p[13..] == before[..2] + [flow] + before[3..400])
  {
    var spec := FlowModel(key).value;
    var p := FlowPayload(models, key, before, flow, token).value;
    MessageParts(token, spec.flag, before[..spec.end][2 := flow]);
    assert before[..spec.end][2 := flow] == before[..2] + [flow] + before[3..spec.end];
    assert p[..5] == token + [1];
    FlowFlags();
  }

  lemma FlowFlags()
    ensures Flags(4) == [0, 0, 0, 0, 0, 0, 0, 16] && Flags(8) == [0, 0, 0, 0, 0, 0, 1, 0]
  {
    assert Pow2(2) == 4;
    assert Pow2(4) == 16;
  }
}
