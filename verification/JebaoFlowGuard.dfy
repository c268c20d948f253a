/**
 What the flow control's conditions on decoded attributes (internal/jebao/flow.go) mean on the bytes
 of the status, for the two wavemakers.
 */
module JebaoFlowGuard {
  import opened Wrappers
  import opened Bytes
  import opened JebaoBits
  import opened JebaoAttributes
  import opened JebaoPayloads
  import opened JebaoTables

  /** Bit k of the packed group, counted from its low end. */
  predicate GroupBit(data: seq<Byte>, group: nat, k: nat)
    requires k < 8 * group <= 8 * |data|
  {
    Bit(data[group - 1 - k / 8], k % 8)
  }

  lemma RawBit(data: seq<Byte>, group: nat, k: nat)
    requires k < 8 * group <= 8 * |data|
    ensures Bit(BigEndian(data[0..group]), k) == GroupBit(data, group, k)
  {
    BigEndianBit(data[0..group], k);
  }

  lemma FlagInGroup(m: Model, s: nat, name: string, k: nat, data: seq<Byte>)
    requires s < |m| && NamedOnce(m, s) && m[s] == FlagAt(name, 0, k)
    requires k < 8 * GroupBytes(m) <= 8 * |data| && Decode(m, data).Ok?
    ensures Lookup(Decode(m, data).value, name) == Some(Flag(GroupBit(data, GroupBytes(m), k)))
  {
    DecodeReads(m, s, data);
    RawBit(data, GroupBytes(m), k);
    var x := Shr(BigEndian(data[0..GroupBytes(m)]), k);
    assert Low(x, 1) == x % 2;
  }

  lemma TwoBits(v: nat, k: nat)
    ensures Low(Shr(v, k), 2) == 0 <==> !Bit(v, k) && !Bit(v, k + 1)
  {
    var x := Shr(v, k);
    ShiftTwice(v, k, 1);
    assert Shr(v, k + 1) == x / 2;
    assert Low(x, 2) == x % 2 + 2 * Low(x / 2, 1);
    assert Low(x / 2, 1) == x / 2 % 2;
  }

  /** A two-bit enum is zero exactly when both its bits are. */
  lemma ZeroEnumInGroup(m: Model, s: nat, name: string, k: nat, data: seq<Byte>)
    requires s < |m| && NamedOnce(m, s) && m[s] == EnumAt(name, k, 2)
    requires k + 1 < 8 * GroupBytes(m) <= 8 * |data| && Decode(m, data).Ok?
    ensures Lookup(Decode(m, data).value, name) == Some(Number(0)) <==>
      !GroupBit(data, GroupBytes(m), k) && !GroupBit(data, GroupBytes(m), k + 1)
  {
    DecodeReads(m, s, data);
    RawBit(data, GroupBytes(m), k);
    RawBit(data, GroupBytes(m), k + 1);
    TwoBits(BigEndian(data[0..GroupBytes(m)]), k);
  }

  lemma ByteInStatus(m: Model, s: nat, name: string, at: nat, data: seq<Byte>)
    requires s < |m| && NamedOnce(m, s) && m[s] == ByteAt(name, at) && at < |data| && Decode(m, data).Ok?
    ensures Lookup(Decode(m, data).value, name) == Some(Number(data[at]))
  {
    DecodeReads(m, s, data);
    assert data[at..at + 1] == [data[at]];
    assert BigEndian([data[at]]) == data[at];
  }

  // ---- names ----

  lemma GmpGuardNames()
    ensures forall s :: 0 <= s < 4 ==> NamedOnce(Gmp(), s)
    ensures forall j :: 0 <= j < |Gmp()| ==> Gmp()[j].name != "FeedSwitch"
  {
    forall s | 0 <= s < 4 ensures NamedOnce(Gmp(), s) {
      GmpGuardName(s);
    }
    assert Without(GmpHead(), "FeedSwitch");
    GmpRestWithout("FeedSwitch");
    assert Gmp() == GmpHead() + GmpRest();
  }

  function GmpRest(): Model {
    Slots(11, 9) + Clock(443) + Faults(451)
  }

  function DlwRest(): Model {
    Slots(8, 8) + Clock(392) + Faults(400)
  }

  predicate GuardName(name: string) {
    name == "SwitchON" || name == "TimerON" || name == "FeedSwitch" || name == "Linkage" || name == "Mode"
  }

  lemma FaultsAndClockWithout(at: nat, clock: nat, name: string)
    requires GuardName(name)
    ensures Without(Faults(at), name) && Without(Clock(clock), name)
  {
  }

  lemma GmpRestWithout(name: string)
    requires GuardName(name)
    ensures Without(GmpRest(), name)
  {
    SlotsWithout(11, 9, name);
    FaultsAndClockWithout(451, 443, name);
  }

  lemma DlwRestWithout(name: string)
    requires GuardName(name)
    ensures Without(DlwRest(), name)
  {
    SlotsWithout(8, 8, name);
    FaultsAndClockWithout(400, 392, name);
  }

  lemma GmpHeadWithout(s: nat, name: string)
    requires s < 4 && name == GmpFlags()[s].name
    ensures Without(GmpFlags()[..s], name) && Without(GmpFlags()[s + 1..], name) && Without(GmpBytes(), name)
    ensures GuardName(name)
  {
  }

  lemma DlwHeadWithout(s: nat, name: string)
    requires (s == 0 || s == 2 || s == 3 || s == 6) && name == DlwFlags()[s].name
    ensures Without(DlwFlags()[..s], name) && Without(DlwFlags()[s + 1..], name) && Without(DlwBytes(), name)
    ensures GuardName(name)
  {
  }

  lemma NamedOnceAmong(flags: Model, s: nat, rest: Model)
    requires s < |flags|
    requires Without(flags[..s], flags[s].name) && Without(flags[s + 1..], flags[s].name) && Without(rest, flags[s].name)
    ensures NamedOnce(flags + rest, s)
  {
    NamedOnceIn(flags[..s], flags[s], flags[s + 1..] + rest);
    assert flags + rest == flags[..s] + [flags[s]] + (flags[s + 1..] + rest);
  }

  lemma GmpGuardName(s: nat)
    requires s < 4
    ensures NamedOnce(Gmp(), s)
  {
    var name := GmpFlags()[s].name;
    GmpHeadWithout(s, name);
    GmpRestWithout(name);
    NamedOnceAmong(GmpFlags(), s, GmpBytes() + GmpRest());
    assert Gmp() == GmpFlags() + (GmpBytes() + GmpRest());
  }

  lemma DlwGuardName(s: nat)
    requires s == 0 || s == 2 || s == 3 || s == 6
    ensures NamedOnce(Dlw(), s)
  {
    var name := DlwFlags()[s].name;
    DlwHeadWithout(s, name);
    DlwRestWithout(name);
    NamedOnceAmong(DlwFlags(), s, DlwBytes() + DlwRest());
    assert Dlw() == DlwFlags() + (DlwBytes() + DlwRest());
  }

  // ---- main results ----

  predicate Usual(token: seq<Byte>, flow: int) {
    |token| == 4 && 1 <= flow <= 100
  }

  lemma GmpDecodes(before: seq<Byte>)
    requires |before| == 452
    ensures GroupBytes(Gmp()) == 1 && Decode(Gmp(), before).Ok?
  {
    GmpTable();
    DecodeSucceeds(Gmp(), before);
  }

  lemma DlwDecodes(before: seq<Byte>)
    requires |before| == 401
    ensures GroupBytes(Dlw()) == 2 && Decode(Dlw(), before).Ok?
  {
    DlwTable();
    DecodeSucceeds(Dlw(), before);
  }

  lemma GmpRefusal(before: seq<Byte>)
    requires |before| == 452 && GroupBytes(Gmp()) == 1 && Decode(Gmp(), before).Ok?
    ensures FlowRefusal(GMP_KEY, Decode(Gmp(), before).value).None? <==>
      Bit(before[0], 0) && !Bit(before[0], 1) && !Bit(before[0], 2) && !Bit(before[0], 3) && before[1] != 7
  {
    GmpGuardNames();
    FlagInGroup(Gmp(), 0, "SwitchON", 0, before);
    FlagInGroup(Gmp(), 1, "TimerON", 1, before);
    ZeroEnumInGroup(Gmp(), 2, "Linkage", 2, before);
    ByteInStatus(Gmp(), 3, "Mode", 1, before);
    DecodeAddsNames(Gmp(), before, "FeedSwitch");
  }

  /**
   The 30-series wavemaker takes a flow exactly when the low four bits of its first byte say on, not
   scheduled and independent, and its second byte is not the feeding mode.
   */
  lemma GmpGuardOnBytes(before: seq<Byte>, flow: int, token: seq<Byte>)
    requires |before| == 452
    ensures FlowPayload(FlowTables(), GMP_KEY, before, flow, token).Ok? <==>
      Usual(token, flow)
      && Bit(before[0], 0) && !Bit(before[0], 1) && !Bit(before[0], 2) && !Bit(before[0], 3) && before[1] != 7
  {
    GmpDecodes(before);
    GmpRefusal(before);
  }

  lemma DlwRefusal(before: seq<Byte>)
    requires |before| == 401 && GroupBytes(Dlw()) == 2 && Decode(Dlw(), before).Ok?
    ensures FlowRefusal(DLW_KEY, Decode(Dlw(), before).value).None? <==>
      Bit(before[1], 0) && !Bit(before[1], 2) && !Bit(before[1], 3) && !Bit(before[1], 7) && !Bit(before[0], 0)
  {
    DlwGuardName(0);
    DlwGuardName(2);
    DlwGuardName(3);
    DlwGuardName(6);
    FlagInGroup(Dlw(), 0, "SwitchON", 0, before);
    FlagInGroup(Dlw(), 2, "FeedSwitch", 2, before);
    FlagInGroup(Dlw(), 3, "TimerON", 3, before);
    ZeroEnumInGroup(Dlw(), 6, "Linkage", 7, before);
  }

  /**
   The other wavemaker packs its flags into two bytes, low byte last: on, not feeding, not scheduled,
   and a linkage field that spans both bytes.
   */
  lemma DlwGuardOnBytes(before: seq<Byte>, flow: int, token: seq<Byte>)
    requires |before| == 401
    ensures FlowPayload(FlowTables(), DLW_KEY, before, flow, token).Ok? <==>
      Usual(token, flow)
      && Bit(before[1], 0) && !Bit(before[1], 2) && !Bit(before[1], 3) && !Bit(before[1], 7) && !Bit(before[0], 0)
  {
    DlwDecodes(before);
    DlwRefusal(before);
  }
}
