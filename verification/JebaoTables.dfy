/**
 The three product tables the writes rely on, as internal/jebao/models.json gives them, and the
 checks that they meet what the payload theorems ask of a table.
 */
module JebaoTables {
  import opened Wrappers
  import opened Bytes
  import opened JebaoAttributes
  import opened JebaoPayloads

  // ---- tables in position order ----

  /** Positions numbered so that the bits of the packed group count from its low end. */
  function Place(group: nat, at: int, bit: int): int {
    if at < group then 8 * (group - 1 - at) + bit else 8 * at + bit
  }

  function First(a: Attribute, group: nat): int {
    if !Fields(a) then 8 * a.byteOffset else if a.byteOffset == 0 then a.bitOffset else 8 * a.byteOffset + a.bitOffset
  }

  function Beyond(a: Attribute, group: nat): int {
    var (lo, hi) := Span(a, group);
    First(a, group) + if Fields(a) then a.length else 8 * (hi - lo)
  }

  /** Within the group, or within one byte behind it, or whole bytes behind it. */
  predicate Simple(a: Attribute, group: nat) {
    && Positioned(a) && Sized(a)
    && if !Fields(a) then a.byteOffset >= group
       else if a.byteOffset == 0 then a.bitOffset + a.length <= 8 * group
       else a.byteOffset >= group && a.bitOffset + a.length <= 8
  }

  predicate Precedes(m: Model, group: nat, i: nat)
    requires i < |m|
  {
    i + 1 < |m| ==> Beyond(m[i], group) <= First(m[i + 1], group)
  }

  predicate Ordered(m: Model, group: nat) {
    && (forall i :: 0 <= i < |m| ==> Simple(m[i], group))
    && (forall i :: 0 <= i < |m| ==> Precedes(m, group, i))
  }

  lemma OwnedPlaces(a: Attribute, group: nat, at: int, bit: int)
    requires Simple(a, group) && Owns(a, group, at, bit)
    ensures First(a, group) <= Place(group, at, bit) < Beyond(a, group)
  {
  }

  lemma {:induction false} OrderedFar(m: Model, group: nat, i: nat, j: nat)
    requires Ordered(m, group) && i < j < |m|
    ensures Beyond(m[i], group) <= First(m[j], group)
    decreases j
  {
    assert Precedes(m, group, j - 1);
    if i < j - 1 {
      OrderedFar(m, group, i, j - 1);
      assert Simple(m[j - 1], group);
    }
  }

  /** A table in position order is well formed. */
  lemma OrderedTableIsWellFormed(m: Model)
    requires Ordered(m, GroupBytes(m))
    ensures WellFormed(m)
  {
    var group := GroupBytes(m);
    forall i, j, at, bit | 0 <= i < j < |m| && Owns(m[i], group, at, bit) ensures !Owns(m[j], group, at, bit) {
      OrderedFar(m, group, i, j);
      OwnedPlaces(m[i], group, at, bit);
      if Owns(m[j], group, at, bit) {
        OwnedPlaces(m[j], group, at, bit);
      }
    }
  }

  lemma {:induction false} NeedIs(m: Model, n: nat, last: nat)
    requires last < |m| && End(m[last]) == n && forall i :: 0 <= i < |m| ==> End(m[i]) <= n
    ensures Need(m) == n
  {
    EndIsNeeded(m, last);
    NeedAtMost(m, n);
  }

  lemma {:induction false} NeedAtMost(m: Model, n: nat)
    requires forall i :: 0 <= i < |m| ==> End(m[i]) <= n
    ensures Need(m) <= n
  {
    if m != [] {
      NeedAtMost(m[..|m| - 1], n);
    }
  }

  predicate GroupWithin(a: Attribute, n: nat) {
    a.inBits && a.byteOffset == 0 ==> a.bitOffset + a.length <= n
  }

  lemma {:induction false} GroupAtMost(m: Model, n: nat)
    requires forall i :: 0 <= i < |m| ==> GroupWithin(m[i], n)
    ensures GroupBits(m) <= n
  {
    if m != [] {
      GroupAtMost(m[..|m| - 1], n);
      assert GroupWithin(m[|m| - 1], n);
    }
  }

  lemma GroupIs(m: Model, n: nat, top: nat)
    requires top < |m| && m[top].inBits && m[top].byteOffset == 0 && m[top].bitOffset + m[top].length == n
    requires forall i :: 0 <= i < |m| ==> GroupWithin(m[i], n)
    ensures GroupBits(m) == n
  {
    EndIsNeeded(m, top);
    GroupAtMost(m, n);
  }

  /** A stretch of a table: in order, between two places, with its group bits and its end bounded. */
  predicate Stretch(m: Model, group: nat, from: int, to: int, bits: nat, need: nat) {
    && |m| > 0 && Ordered(m, group) && from <= First(m[0], group) && Beyond(m[|m| - 1], group) <= to
    && forall i :: 0 <= i < |m| ==> GroupWithin(m[i], bits) && End(m[i]) <= need
  }

  lemma Join(a: Model, b: Model, group: nat, from: int, mid: int, to: int, bits: nat, need: nat)
    requires Stretch(a, group, from, mid, bits, need) && Stretch(b, group, mid, to, bits, need)
    ensures Stretch(a + b, group, from, to, bits, need)
  {
    var m := a + b;
    forall i | 0 <= i < |m| ensures Precedes(m, group, i) {
      if i < |a| {
        assert Precedes(a, group, i);
      } else {
        assert Precedes(b, group, i - |a|);
      }
    }
  }

  /** A whole table in one stretch, whose widest group attribute and last byte are known. */
  lemma StretchedTable(m: Model, group: nat, from: int, to: int, bits: nat, need: nat, top: nat)
    requires Stretch(m, group, from, to, bits, need) && group == (bits + 7) / 8
    requires top < |m| && m[top].inBits && m[top].byteOffset == 0 && m[top].bitOffset + m[top].length == bits
    requires End(m[|m| - 1]) == need
    ensures WellFormed(m) && Need(m) == need && GroupBytes(m) == group
  {
    GroupIs(m, bits, top);
    OrderedTableIsWellFormed(m);
    NeedIs(m, need, |m| - 1);
  }

  // ---- the tables ----

  function FlagAt(name: string, at: nat, bit: nat): Attribute {
    Attribute(name, Bool, true, at, bit, 1)
  }

  function EnumAt(name: string, bit: nat, length: nat): Attribute {
    Attribute(name, Enum, true, 0, bit, length)
  }

  function ByteAt(name: string, at: nat): Attribute {
    Attribute(name, Uint8, false, at, 0, 1)
  }

  function BlockAt(name: string, at: nat, length: nat): Attribute {
    Attribute(name, Binary, false, at, 0, length)
  }

  function SlotName(i: nat): string {
    "AutoTime" + [('0' as int + i / 10 % 10) as char, ('0' as int + i % 10) as char]
  }

  /** The 48 schedule slots. */
  function Slots(first: nat, step: nat): (s: Model)
    ensures |s| == 48
    ensures forall i :: 0 <= i < 48 ==> s[i] == BlockAt(SlotName(i), first + i * step, step)
  {
    seq(48, i requires 0 <= i < 48 => BlockAt(SlotName(i), first + i * step, step))
  }

  function Faults(at: nat): Model {
    [FlagAt("Fault_Overcurrent", at, 0), FlagAt("Fault_Overvoltage", at, 1), FlagAt("Fault_OverTemp", at, 2),
     FlagAt("Fault_Undervoltage", at, 3), FlagAt("Fault_Lockedrotor", at, 4), FlagAt("Fault_no_liveload", at, 5),
     FlagAt("Fault_UART", at, 6)]
  }

  function MdpFlags(): Model {
    [FlagAt("SwitchON", 0, 0), FlagAt("Mode", 0, 1), FlagAt("FeedSwitch", 0, 2), FlagAt("TimerON", 0, 3), EnumAt("AutoMode", 4, 2)]
  }

  function MdpBytes(): Model {
    [ByteAt("Motor_Speed", 1), ByteAt("FeedTime", 2), ByteAt("AutoGears", 3), ByteAt("AutoFeedTime", 4),
     BlockAt("YMDData", 5, 4), BlockAt("HMSData", 9, 4)]
  }

  function MdpHead(): Model {
    MdpFlags() + MdpBytes()
  }

  function Mdp(): Model {
    MdpHead() + Slots(13, 6) + Faults(301)
  }

  function Clock(at: nat): Model {
    [BlockAt("YMDData", at, 4), BlockAt("HMSData", at + 4, 4)]
  }

  function GmpFlags(): Model {
    [FlagAt("SwitchON", 0, 0), FlagAt("TimerON", 0, 1), EnumAt("Linkage", 2, 2), ByteAt("Mode", 1),
     ByteAt("Flow", 2), ByteAt("Frequency", 3)]
  }

  function GmpBytes(): Model {
    [ByteAt("Cust_Wav_Freq", 4), ByteAt("FeedTime", 5), ByteAt("AutoMode", 6), ByteAt("AutoFlow", 7),
     ByteAt("AutoFreq", 8), ByteAt("Auto_Cust_Wav_Freq", 9), ByteAt("AutoFeedTime", 10)]
  }

  function GmpHead(): Model {
    GmpFlags() + GmpBytes()
  }

  function Gmp(): Model {
    GmpHead() + Slots(11, 9) + Clock(443) + Faults(451)
  }

  function DlwFlags(): Model {
    [FlagAt("SwitchON", 0, 0), FlagAt("PulseTide", 0, 1), FlagAt("FeedSwitch", 0, 2), FlagAt("TimerON", 0, 3),
     FlagAt("AutoPulseTide", 0, 4), EnumAt("Mode", 5, 2), EnumAt("Linkage", 7, 2), EnumAt("AutoMode", 9, 3)]
  }

  function DlwBytes(): Model {
    [ByteAt("Flow", 2), ByteAt("Frequency", 3), ByteAt("FeedTime", 4), ByteAt("AutoFlow", 5),
     ByteAt("AutoFreq", 6), ByteAt("AutoFeedTime", 7)]
  }

  function DlwHead(): Model {
    DlwFlags() + DlwBytes()
  }

  function Dlw(): Model {
    DlwHead() + Slots(8, 8) + Clock(392) + Faults(400)
  }

  lemma SlotStarts(i: nat, step: nat)
    requires i < 48 && step >= 1
    ensures 0 <= i * step && i * step + step == (i + 1) * step <= 48 * step
  {
    assert (47 - i) * step >= 0;
  }

  lemma SlotsStretch(group: nat, first: nat, step: nat, bits: nat, need: nat)
    requires group <= first && step >= 1 && first + 48 * step <= need
    ensures Stretch(Slots(first, step), group, 8 * first, 8 * (first + 48 * step), bits, need)
  {
    var m := Slots(first, step);
    forall i | 0 <= i < |m| ensures Simple(m[i], group) && End(m[i]) <= need && GroupWithin(m[i], bits) {
      SlotStarts(i, step);
    }
    forall i | 0 <= i < |m| ensures Precedes(m, group, i) {
      SlotStarts(i, step);
    }
    SlotStarts(0, step);
    SlotStarts(47, step);
  }

  lemma FaultsStretch(group: nat, at: nat, bits: nat)
    requires group <= at && at >= 1
    ensures Stretch(Faults(at), group, 8 * at, 8 * at + 7, bits, at + 1)
  {
  }

  lemma MdpFlagsStretch()
    ensures Stretch(MdpFlags(), 1, 0, 8, 6, 302)
  {
  }

  lemma MdpBytesStretch()
    ensures Stretch(MdpBytes(), 1, 8, 104, 6, 302)
  {
  }

  lemma MdpHeadStretch()
    ensures Stretch(MdpHead(), 1, 0, 104, 6, 302)
  {
    MdpFlagsStretch();
    MdpBytesStretch();
    Join(MdpFlags(), MdpBytes(), 1, 0, 8, 104, 6, 302);
  }

  /** The pump's table: one byte of flags, speed in byte 1, 302 bytes in all. */
  lemma MdpTable()
    ensures WellFormed(Mdp()) && Need(Mdp()) == 302 && GroupBytes(Mdp()) == 1
    ensures |Mdp()| == 66 && Mdp()[5] == ByteAt("Motor_Speed", 1) && Mdp()[2] == FlagAt("FeedSwitch", 0, 2)
  {
    MdpHeadStretch();
    SlotsStretch(1, 13, 6, 6, 302);
    FaultsStretch(1, 301, 6);
    Join(MdpHead(), Slots(13, 6), 1, 0, 104, 2408, 6, 302);
    Join(MdpHead() + Slots(13, 6), Faults(301), 1, 0, 2408, 2415, 6, 302);
    StretchedTable(Mdp(), 1, 0, 2415, 6, 302, 4);
  }

  lemma GmpFlagsStretch()
    ensures Stretch(GmpFlags(), 1, 0, 32, 4, 452)
  {
  }

  lemma GmpBytesStretch()
    ensures Stretch(GmpBytes(), 1, 32, 88, 4, 452)
  {
  }

  lemma GmpHeadStretch()
    ensures Stretch(GmpHead(), 1, 0, 88, 4, 452)
  {
    GmpFlagsStretch();
    GmpBytesStretch();
    Join(GmpFlags(), GmpBytes(), 1, 0, 32, 88, 4, 452);
  }

  lemma ClockStretch(group: nat, at: nat, bits: nat, need: nat)
    requires group <= at && at + 8 <= need
    ensures Stretch(Clock(at), group, 8 * at, 8 * at + 64, bits, need)
  {
  }

  /** The 30-series wavemaker: flow in byte 2 is attribute 4, 452 bytes in all. */
  lemma GmpTable()
    ensures WellFormed(Gmp()) && Need(Gmp()) == 452 && GroupBytes(Gmp()) == 1
    ensures |Gmp()| == 70 && Gmp()[4] == ByteAt("Flow", 2)
  {
    GmpHeadStretch();
    SlotsStretch(1, 11, 9, 4, 452);
    ClockStretch(1, 443, 4, 452);
    FaultsStretch(1, 451, 4);
    Join(GmpHead(), Slots(11, 9), 1, 0, 88, 3544, 4, 452);
    Join(GmpHead() + Slots(11, 9), Clock(443), 1, 0, 3544, 3608, 4, 452);
    Join(GmpHead() + Slots(11, 9) + Clock(443), Faults(451), 1, 0, 3608, 3615, 4, 452);
    StretchedTable(Gmp(), 1, 0, 3615, 4, 452, 2);
  }

  lemma DlwFlagsStretch()
    ensures Stretch(DlwFlags(), 2, 0, 16, 12, 401)
  {
  }

  lemma DlwBytesStretch()
    ensures Stretch(DlwBytes(), 2, 16, 64, 12, 401)
  {
  }

  lemma DlwHeadStretch()
    ensures Stretch(DlwHead(), 2, 0, 64, 12, 401)
  {
    DlwFlagsStretch();
    DlwBytesStretch();
    Join(DlwFlags(), DlwBytes(), 2, 0, 16, 64, 12, 401);
  }

  /** The other wavemaker packs twelve bits into two bytes; flow in byte 2 is attribute 8, 401 bytes in all. */
  lemma DlwTable()
    ensures WellFormed(Dlw()) && Need(Dlw()) == 401 && GroupBytes(Dlw()) == 2
    ensures |Dlw()| == 71 && Dlw()[8] == ByteAt("Flow", 2)
  {
    DlwHeadStretch();
    SlotsStretch(2, 8, 8, 12, 401);
    ClockStretch(2, 392, 12, 401);
    FaultsStretch(2, 400, 12);
    Join(DlwHead(), Slots(8, 8), 2, 0, 64, 3136, 12, 401);
    Join(DlwHead() + Slots(8, 8), Clock(392), 2, 0, 3136, 3200, 12, 401);
    Join(DlwHead() + Slots(8, 8) + Clock(392), Faults(400), 2, 0, 3200, 3207, 12, 401);
    StretchedTable(Dlw(), 2, 0, 3207, 12, 401, 7);
  }

  // ---- names ----

  /** No attribute of the stretch is called name. */
  predicate Without(m: Model, name: string) {
    forall i :: 0 <= i < |m| ==> m[i].name != name
  }

  lemma OthersWithout(m: Model, name: string)
    requires name == "Motor_Speed" || name == "FeedSwitch" || name == "SwitchON" || name == "TimerON" || name == "Flow"
    requires m == Faults(301) || m == Faults(451) || m == Faults(400) || m == Clock(443) || m == Clock(392)
    ensures Without(m, name)
  {
  }

  lemma SlotsWithout(first: nat, step: nat, name: string)
    requires |name| > 0 && name[0] != 'A'
    ensures Without(Slots(first, step), name)
  {
    assert forall i: nat :: SlotName(i)[0] == 'A';
  }

  lemma NamedOnceIn(a: Model, x: Attribute, b: Model)
    requires Without(a, x.name) && Without(b, x.name)
    ensures NamedOnce(a + [x] + b, |a|)
  {
  }

  lemma MdpNamedOnce(s: nat)
    requires s == 0 || s == 2 || s == 3 || s == 5
    ensures NamedOnce(Mdp(), s)
  {
    var head := MdpHead();
    var name := head[s].name;
    assert Without(head[..s], name) && Without(head[s + 1..], name);
    SlotsWithout(13, 6, name);
    OthersWithout(Faults(301), name);
    NamedOnceIn(head[..s], head[s], head[s + 1..] + Slots(13, 6) + Faults(301));
    assert Mdp() == head[..s] + [head[s]] + (head[s + 1..] + Slots(13, 6) + Faults(301));
  }

  lemma MdpNames()
    ensures forall s :: s == 0 || s == 2 || s == 3 || s == 5 ==> NamedOnce(Mdp(), s)
  {
    forall s | s == 0 || s == 2 || s == 3 || s == 5 ensures NamedOnce(Mdp(), s) {
      MdpNamedOnce(s);
    }
  }

  lemma GmpNames()
    ensures NamedOnce(Gmp(), 4)
  {
    assert Without(GmpHead()[..4], "Flow") && Without(GmpHead()[5..], "Flow");
    SlotsWithout(11, 9, "Flow");
    OthersWithout(Faults(451), "Flow");
    OthersWithout(Clock(443), "Flow");
  }

  lemma DlwNames()
    ensures NamedOnce(Dlw(), 8)
  {
    assert Without(DlwHead()[..8], "Flow") && Without(DlwHead()[9..], "Flow");
    SlotsWithout(8, 8, "Flow");
    OthersWithout(Faults(400), "Flow");
    OthersWithout(Clock(392), "Flow");
  }

  lemma FlowNames()
    ensures NamedOnce(Gmp(), 4) && NamedOnce(Dlw(), 8)
  {
    GmpNames();
    DlwNames();
  }

  // ---- the payload theorems on these tables ----

  /** Every accepted pump write, on every 302-byte status, changes its own attribute and nothing else. */
  lemma PumpWritesOneAttribute(before: seq<Byte>, speed: int, enabled: bool, token: seq<Byte>)
    requires |before| == 302
    ensures WellFormed(Mdp()) && Decode(Mdp(), before).Ok?
    ensures SpeedPayload(before, speed, token).Ok? ==>
      Decode(Mdp(), Told(SpeedPayload(before, speed, token).value, before, 301))
        == Ok(Decode(Mdp(), before).value["Motor_Speed" := Number(speed)])
    ensures FeedingPayload(before, enabled, token).Ok? ==>
      Decode(Mdp(), Told(FeedingPayload(before, enabled, token).value, before, 301))
        == Ok(Decode(Mdp(), before).value["FeedSwitch" := Flag(enabled)])
  {
    MdpTable();
    MdpNames();
    DecodeSucceeds(Mdp(), before);
    if SpeedPayload(before, speed, token).Ok? {
      SpeedChangesOnlySpeed(Mdp(), before, speed, token);
    }
    if FeedingPayload(before, enabled, token).Ok? {
      FeedingChangesOnlyFeedSwitch(Mdp(), before, enabled, token);
    }
  }

  function FlowTables(): map<string, Model> {
    map[GMP_KEY := Gmp(), DLW_KEY := Dlw()]
  }

  /** Every accepted flow write changes the decoded flow and nothing else. */
  lemma FlowWritesOneAttribute(key: string, before: seq<Byte>, flow: int, token: seq<Byte>)
    ensures FlowPayload(FlowTables(), key, before, flow, token).Ok? ==>
      var m, end := FlowTables()[key], FlowModel(key).value.end;
      && Decode(m, before).Ok?
      && Decode(m, Told(FlowPayload(FlowTables(), key, before, flow, token).value, before, end))
        == Ok(Decode(m, before).value["Flow" := Number(flow)])
  {
    GmpTable();
    DlwTable();
    FlowNames();
    if FlowPayload(FlowTables(), key, before, flow, token).Ok? {
      FlowChangesOnlyFlow(FlowTables(), key, before, flow, token);
    }
  }
}
