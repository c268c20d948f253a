/**
 The attribute decoder of a JEBAO status (internal/jebao/models.go). A model lists attributes with
 their positions; those in bit units at byte offset zero share one packed big-endian group.
 */
module JebaoAttributes {
  import opened Wrappers
  import opened Bytes
  import opened GoMath
  import opened JebaoBits

  datatype Kind = Bool | Enum | Uint8 | Uint16 | Binary | Other

  /** inBits: the position's unit is "bit". */
  datatype Attribute =
    Attribute(name: string, kind: Kind, inBits: bool, byteOffset: int, bitOffset: int, length: int)

  type Model = seq<Attribute>

  datatype Value = Flag(on: bool) | Number(n: nat)

  /** OutsideStatus: the table points past the status, where the original slices out of range. */
  datatype DecodeError = BadSize | WideGroup | BadPosition | WideBits | OutsideStatus | NothingDecoded

  type Attributes = map<string, Value>

  // ---- what the decoder computes ----

  function End(a: Attribute): int {
    if a.inBits then a.byteOffset + Quot(a.bitOffset + a.length + 7, 8) else a.byteOffset + a.length
  }

  /** The largest end of the first attributes, at least zero. */
  function Need(m: Model): nat {
    if m == [] then 0 else Max(Need(m[..|m| - 1]), End(m[|m| - 1]))
  }

  /** The bits of the packed group. */
  function GroupBits(m: Model): nat {
    if m == [] then 0
    else
      var a := m[|m| - 1];
      var before := GroupBits(m[..|m| - 1]);
      if a.inBits && a.byteOffset == 0 then Max(before, a.bitOffset + a.length) else before
  }

  function GroupBytes(m: Model): nat {
    (GroupBits(m) + 7) / 8
  }

  /** How many bytes hold a bool or an enum. */
  function Width(a: Attribute, group: nat): int {
    if a.byteOffset == 0 then group else (a.bitOffset + a.length + 7) / 8
  }

  predicate Positioned(a: Attribute) {
    a.byteOffset >= 0 && a.length > 0 && a.bitOffset >= 0
  }

  predicate Fields(a: Attribute) {
    a.kind == Bool || a.kind == Enum
  }

  predicate Decoded(a: Attribute) {
    Fields(a) || a.kind == Uint8 || a.kind == Uint16
  }

  /** The bytes an attribute's value is read from. */
  function Span(a: Attribute, group: nat): (int, int) {
    if Fields(a) then (a.byteOffset, a.byteOffset + Width(a, group))
    else if a.kind == Uint8 then (a.byteOffset, a.byteOffset + 1)
    else if a.kind == Uint16 then (a.byteOffset, a.byteOffset + 2)
    else (a.byteOffset, a.byteOffset + a.length)
  }

  predicate InBounds(a: Attribute, group: nat, size: nat) {
    var (lo, hi) := Span(a, group);
    0 <= lo <= hi <= size
  }

  function Reading(a: Attribute, group: nat, data: seq<Byte>): Value
    requires Positioned(a) && Decoded(a) && InBounds(a, group, |data|)
  {
    var (lo, hi) := Span(a, group);
    var raw := BigEndian(data[lo..hi]);
    var value := if Fields(a) then Low(Shr(raw, a.bitOffset), a.length) else raw;
    if a.kind == Bool then Flag(value != 0) else Number(value)
  }

  predicate TooWide(a: Attribute, group: nat) {
    Fields(a) && (Width(a, group) > 8 || a.length > 32)
  }

  /** The attributes from i on, added to those decoded so far. */
  function DecodeFrom(m: Model, i: nat, data: seq<Byte>, out: Attributes): Result<Attributes, DecodeError>
    requires i <= |m|
    decreases |m| - i, |data|
  {
    if i == |m| then if |out| == 0 then Err(NothingDecoded) else Ok(out)
    else if !Positioned(m[i]) then Err(BadPosition)
    else if !Decoded(m[i]) then DecodeFrom(m, i + 1, data, out)
    else if TooWide(m[i], GroupBytes(m)) then Err(WideBits)
    else if !InBounds(m[i], GroupBytes(m), |data|) then Err(OutsideStatus)
    else DecodeFrom(m, i + 1, data, out[m[i].name := Reading(m[i], GroupBytes(m), data)])
  }

  function Decode(m: Model, data: seq<Byte>): Result<Attributes, DecodeError> {
    if Need(m) == 0 || |data| != Need(m) then Err(BadSize)
    else if GroupBytes(m) > 8 then Err(WideGroup)
    else DecodeFrom(m, 0, data, map[])
  }

  // ---- on a usable table the decoder never leaves the data ----

  /** Bools and enums are placed in bits, and 16-bit numbers are two bytes long. */
  predicate Sized(a: Attribute) {
    && (Fields(a) ==> a.inBits)
    && (a.kind == Uint16 ==> if a.inBits then a.bitOffset + a.length > 8 else a.length >= 2)
  }

  predicate AllSized(m: Model) {
    forall i :: 0 <= i < |m| ==> Sized(m[i])
  }

  lemma {:induction false} EndIsNeeded(m: Model, i: nat)
    requires i < |m|
    ensures End(m[i]) <= Need(m)
    ensures m[i].inBits && m[i].byteOffset == 0 ==> m[i].bitOffset + m[i].length <= GroupBits(m)
    decreases |m|
  {
    if i < |m| - 1 {
      EndIsNeeded(m[..|m| - 1], i);
    }
  }

  lemma {:induction false} GroupIsNeeded(m: Model)
    ensures GroupBytes(m) <= Need(m)
  {
    if m != [] {
      GroupIsNeeded(m[..|m| - 1]);
    }
  }

  lemma SpanFits(m: Model, i: nat)
    requires i < |m| && AllSized(m) && Positioned(m[i]) && Decoded(m[i])
    ensures InBounds(m[i], GroupBytes(m), Need(m))
  {
    assert Sized(m[i]);
    EndIsNeeded(m, i);
    GroupIsNeeded(m);
  }

  lemma {:induction false} SizedFromStaysInside(m: Model, i: nat, data: seq<Byte>, out: Attributes)
    requires AllSized(m) && i <= |m| && |data| == Need(m)
    ensures DecodeFrom(m, i, data, out) != Err(OutsideStatus)
    decreases |m| - i
  {
    if i < |m| && Positioned(m[i]) {
      if Decoded(m[i]) {
        SpanFits(m, i);
        SizedFromStaysInside(m, i + 1, data, out[m[i].name := Reading(m[i], GroupBytes(m), data)]);
      } else {
        SizedFromStaysInside(m, i + 1, data, out);
      }
    }
  }

  /** With such a table no status, of whatever size, makes the decoder slice out of range. */
  lemma SizedStaysInside(m: Model, data: seq<Byte>)
    requires AllSized(m)
    ensures Decode(m, data) != Err(OutsideStatus)
  {
    if |data| == Need(m) { SizedFromStaysInside(m, 0, data, map[]); }
  }

  lemma {:induction false} GroupFits(m: Model)
    ensures GroupBits(m) <= 64 <==>
      forall i :: 0 <= i < |m| && m[i].inBits && m[i].byteOffset == 0 ==> m[i].bitOffset + m[i].length <= 64
  {
    if m != [] {
      var front := m[..|m| - 1];
      GroupFits(front);
      assert m == front + [m[|m| - 1]];
    }
  }

  /** A decoded bool or enum is at most 32 bits wide and read from at most eight bytes. */
  predicate Narrow(a: Attribute) {
    Fields(a) ==> a.length <= 32 && (a.byteOffset != 0 ==> a.bitOffset + a.length <= 64)
  }

  lemma NarrowExactly(a: Attribute, group: nat)
    requires Positioned(a) && group <= 8
    ensures TooWide(a, group) <==> !Narrow(a)
  {
  }

  lemma {:induction false} DecodeFromExactly(m: Model, i: nat, data: seq<Byte>, out: Attributes)
    requires AllSized(m) && i <= |m| && |data| == Need(m) && GroupBytes(m) <= 8
    ensures DecodeFrom(m, i, data, out).Ok? <==>
      && (forall j :: i <= j < |m| ==> Positioned(m[j]) && Narrow(m[j]))
      && (out != map[] || exists j :: i <= j < |m| && Decoded(m[j]))
    decreases |m| - i
  {
    if i == |m| {
      assert out == map[] <==> |out| == 0;
    } else if Positioned(m[i]) {
      NarrowExactly(m[i], GroupBytes(m));
      if Decoded(m[i]) {
        SpanFits(m, i);
        var next := out[m[i].name := Reading(m[i], GroupBytes(m), data)];
        assert m[i].name in next;
        DecodeFromExactly(m, i + 1, data, next);
      } else {
        DecodeFromExactly(m, i + 1, data, out);
      }
    }
  }

  /**
   Which tables and statuses decode: of the size the table needs, not zero, with valid positions, at most
   64 bits in the packed group, at most 32 in one field, and something to decode.
   */
  lemma DecodesExactly(m: Model, data: seq<Byte>)
    requires AllSized(m)
    ensures Decode(m, data).Ok? <==>
      && |data| == Need(m) > 0
      && (forall i :: 0 <= i < |m| && m[i].inBits && m[i].byteOffset == 0 ==> m[i].bitOffset + m[i].length <= 64)
      && (forall i :: 0 <= i < |m| ==> Positioned(m[i]) && Narrow(m[i]))
      && exists i :: 0 <= i < |m| && Decoded(m[i])
  {
    GroupFits(m);
    if |data| == Need(m) && GroupBytes(m) <= 8 { DecodeFromExactly(m, 0, data, map[]); }
  }

  // ---- the decoder ----

  method ReadNumber(s: seq<Byte>) returns (value: nat)
    ensures value == BigEndian(s)
  {
    value := 0;
    for i := 0 to |s|
      invariant value == BigEndian(s[..i])
    {
      assert s[..i + 1][..i] == s[..i];
      value := value * 256 + s[i];
    }
    assert s[..|s|] == s;
  }

  method Measure(m: Model) returns (need: nat, groupBits: nat)
    ensures need == Need(m) && groupBits == GroupBits(m)
  {
    need, groupBits := 0, 0;
    for i := 0 to |m|
      invariant need == Need(m[..i]) && groupBits == GroupBits(m[..i])
    {
      var a := m[i];
      assert m[..i + 1][..i] == m[..i];
      var end := a.byteOffset + a.length;
      if a.inBits {
        end := a.byteOffset + Quot(a.bitOffset + a.length + 7, 8);
        if a.byteOffset == 0 && a.bitOffset + a.length > groupBits {
          groupBits := a.bitOffset + a.length;
        }
      }
      if end > need { need := end; }
    }
    assert m[..|m|] == m;
  }

  method DecodeStatus(m: Model, data: seq<Byte>) returns (r: Result<Attributes, DecodeError>)
    ensures r == Decode(m, data)
  {
    var need, groupBits := Measure(m);
    if need == 0 || |data| != need { return Err(BadSize); }
    var groupBytes := (groupBits + 7) / 8;
    if groupBytes > 8 { return Err(WideGroup); }
    var out: Attributes := map[];
    for i := 0 to |m|
      invariant DecodeFrom(m, i, data, out) == Decode(m, data)
    {
      var a := m[i];
      if a.byteOffset < 0 || a.length <= 0 || a.bitOffset < 0 { return Err(BadPosition); }
      if Decoded(a) {
        if TooWide(a, groupBytes) { return Err(WideBits); }
        if !InBounds(a, groupBytes, |data|) { return Err(OutsideStatus); }
        var (lo, hi) := Span(a, groupBytes);
        var value := ReadNumber(data[lo..hi]);
        if Fields(a) { value := Low(Shr(value, a.bitOffset), a.length); }
        out := out[a.name := if a.kind == Bool then Flag(value != 0) else Number(value)];
      }
    }
    if |out| == 0 { return Err(NothingDecoded); }
    return Ok(out);
  }

  // ---- which bits an attribute owns ----

  /** Bit `bit` of byte `at` is part of a's value. */
  predicate Owns(a: Attribute, group: nat, at: int, bit: int) {
    var (lo, hi) := Span(a, group);
    lo <= at < hi && 0 <= bit < 8
    && (Fields(a) ==> a.bitOffset <= 8 * (hi - 1 - at) + bit < a.bitOffset + a.length)
  }

  ghost predicate Disjoint(m: Model) {
    forall i, j, at, bit :: 0 <= i < j < |m| && Owns(m[i], GroupBytes(m), at, bit) ==> !Owns(m[j], GroupBytes(m), at, bit)
  }

  ghost predicate WellFormed(m: Model) {
    && AllSized(m) && Disjoint(m)
    && forall i :: 0 <= i < |m| ==> Positioned(m[i])
  }

  /** No other attribute overwrites the entry of attribute s. */
  predicate NamedOnce(m: Model, s: nat)
    requires s < |m|
  {
    forall i :: 0 <= i < |m| && i != s ==> m[i].name != m[s].name
  }

  predicate AgreeAt(data: seq<Byte>, data': seq<Byte>, at: int, bit: int)
    requires 0 <= at < |data| == |data'| && 0 <= bit
  {
    Bit(data[at], bit) == Bit(data'[at], bit)
  }

  /** The two statuses have the same bits wherever a is placed. */
  ghost predicate AgreeOn(a: Attribute, group: nat, data: seq<Byte>, data': seq<Byte>)
    requires |data| == |data'|
  {
    forall at, bit :: 0 <= at < |data| && Owns(a, group, at, bit) ==> AgreeAt(data, data', at, bit)
  }

  lemma ByteIsItsLowBits(a: Byte)
    ensures Low(Shr(a, 0), 8) == a
  {
    MaskIsRemainder(a, 8);
    ByteWeight();
  }

  lemma SameBitsSameByte(a: Byte, b: Byte)
    requires forall j :: 0 <= j < 8 ==> Bit(a, j) == Bit(b, j)
    ensures a == b
  {
    FieldDependsOnItsBits(a, b, 0, 8);
    ByteIsItsLowBits(a);
    ByteIsItsLowBits(b);
  }

  lemma FieldBitsAgree(a: Attribute, group: nat, data: seq<Byte>, data': seq<Byte>, j: nat)
    requires |data| == |data'| && Fields(a) && a.inBits && Positioned(a) && InBounds(a, group, |data|)
    requires AgreeOn(a, group, data, data')
    requires a.bitOffset <= j < a.bitOffset + a.length <= 8 * Width(a, group)
    ensures var (lo, hi) := Span(a, group); Bit(BigEndian(data[lo..hi]), j) == Bit(BigEndian(data'[lo..hi]), j)
  {
    var (lo, hi) := Span(a, group);
    BigEndianBit(data[lo..hi], j);
    BigEndianBit(data'[lo..hi], j);
    var at := hi - 1 - j / 8;
    assert Owns(a, group, at, j % 8);
    assert AgreeAt(data, data', at, j % 8);
  }

  /** An attribute's value depends on its own bits only. */
  lemma ReadingDependsOnOwnBits(a: Attribute, group: nat, data: seq<Byte>, data': seq<Byte>)
    requires |data| == |data'| && Positioned(a) && Decoded(a) && InBounds(a, group, |data|)
    requires Fields(a) ==> a.inBits && a.bitOffset + a.length <= 8 * Width(a, group)
    requires AgreeOn(a, group, data, data')
    ensures Reading(a, group, data) == Reading(a, group, data')
  {
    var (lo, hi) := Span(a, group);
    var v, w := BigEndian(data[lo..hi]), BigEndian(data'[lo..hi]);
    if Fields(a) {
      forall j: nat | a.bitOffset <= j < a.bitOffset + a.length ensures Bit(v, j) == Bit(w, j) {
        FieldBitsAgree(a, group, data, data', j);
      }
      FieldDependsOnItsBits(v, w, a.bitOffset, a.length);
    } else {
      forall at | lo <= at < hi ensures data[at] == data'[at] {
        forall bit | 0 <= bit < 8 ensures Bit(data[at], bit) == Bit(data'[at], bit) {
          assert Owns(a, group, at, bit);
          assert AgreeAt(data, data', at, bit);
        }
        SameBitsSameByte(data[at], data'[at]);
      }
      assert data[lo..hi] == data'[lo..hi];
    }
  }

  // ---- changing one attribute ----

  /** data' differs from data in bits of attribute s only. */
  ghost predicate OnlyAttribute(m: Model, s: nat, data: seq<Byte>, data': seq<Byte>)
    requires s < |m| && |data| == |data'|
  {
    forall at, bit :: 0 <= at < |data| && 0 <= bit < 8 && !Owns(m[s], GroupBytes(m), at, bit) ==> AgreeAt(data, data', at, bit)
  }

  lemma OthersKeepTheirReading(m: Model, s: nat, i: nat, data: seq<Byte>, data': seq<Byte>)
    requires WellFormed(m) && s < |m| && i < |m| && i != s && Decoded(m[i])
    requires Need(m) == |data| == |data'| && OnlyAttribute(m, s, data, data')
    ensures InBounds(m[i], GroupBytes(m), |data|)
    ensures Reading(m[i], GroupBytes(m), data) == Reading(m[i], GroupBytes(m), data')
  {
    var group := GroupBytes(m);
    SpanFits(m, i);
    EndIsNeeded(m, i);
    forall at, bit | 0 <= at < |data| && Owns(m[i], group, at, bit) ensures AgreeAt(data, data', at, bit) {
      assert !Owns(m[s], group, at, bit);
    }
    ReadingDependsOnOwnBits(m[i], group, data, data');
  }

  /** Decoding two such statuses runs in step: the tables differ at most at the changed attribute. */
  lemma {:induction false} DecodeInStep(m: Model, s: nat, i: nat, data: seq<Byte>, data': seq<Byte>,
                                        out: Attributes, out': Attributes)
    requires WellFormed(m) && s < |m| && i <= |m| && Decoded(m[s]) && NamedOnce(m, s)
    requires Need(m) == |data| == |data'| && OnlyAttribute(m, s, data, data')
    requires InBounds(m[s], GroupBytes(m), |data|)
    requires i <= s ==> out' == out
    requires i > s ==> m[s].name in out && out' == out[m[s].name := Reading(m[s], GroupBytes(m), data')]
    requires DecodeFrom(m, i, data, out).Ok?
    ensures DecodeFrom(m, i, data', out')
         == Ok(DecodeFrom(m, i, data, out).value[m[s].name := Reading(m[s], GroupBytes(m), data')])
    decreases |m| - i
  {
    if i < |m| {
      var group := GroupBytes(m);
      if Decoded(m[i]) {
        SpanFits(m, i);
        var next := out[m[i].name := Reading(m[i], group, data)];
        var next' := out'[m[i].name := Reading(m[i], group, data')];
        if i != s {
          OthersKeepTheirReading(m, s, i, data, data');
        }
        if i >= s {
          assert next' == next[m[s].name := Reading(m[s], group, data')];
        }
        DecodeInStep(m, s, i + 1, data, data', next, next');
      } else {
        DecodeInStep(m, s, i + 1, data, data', out, out');
      }
    } else {
      assert out' == out[m[s].name := Reading(m[s], GroupBytes(m), data')];
      assert m[s].name in out';
    }
  }

  /** A status whose other bits are untouched decodes as before, except for the changed attribute. */
  lemma OneAttributeChanges(m: Model, s: nat, data: seq<Byte>, data': seq<Byte>)
    requires WellFormed(m) && s < |m| && Decoded(m[s]) && NamedOnce(m, s) && |data| == |data'|
    requires Decode(m, data).Ok? && OnlyAttribute(m, s, data, data')
    ensures InBounds(m[s], GroupBytes(m), |data|)
    ensures Decode(m, data') == Ok(Decode(m, data).value[m[s].name := Reading(m[s], GroupBytes(m), data')])
  {
    SpanFits(m, s);
    DecodeInStep(m, s, 0, data, data', map[], map[]);
  }

  lemma {:induction false} DecodeFromReads(m: Model, s: nat, i: nat, data: seq<Byte>, out: Attributes)
    requires s < |m| && i <= |m| && Decoded(m[s]) && NamedOnce(m, s)
    requires DecodeFrom(m, i, data, out).Ok?
    requires i > s ==> Positioned(m[s]) && InBounds(m[s], GroupBytes(m), |data|)
    requires i > s ==> m[s].name in out && out[m[s].name] == Reading(m[s], GroupBytes(m), data)
    ensures Positioned(m[s]) && InBounds(m[s], GroupBytes(m), |data|)
    ensures var r := DecodeFrom(m, i, data, out).value;
      m[s].name in r && r[m[s].name] == Reading(m[s], GroupBytes(m), data)
    decreases |m| - i
  {
    if i < |m| {
      if Decoded(m[i]) {
        DecodeFromReads(m, s, i + 1, data, out[m[i].name := Reading(m[i], GroupBytes(m), data)]);
      } else {
        DecodeFromReads(m, s, i + 1, data, out);
      }
    }
  }

  /** The decoded table holds every attribute's own reading. */
  lemma DecodeReads(m: Model, s: nat, data: seq<Byte>)
    requires s < |m| && Decoded(m[s]) && NamedOnce(m, s) && Decode(m, data).Ok?
    ensures Positioned(m[s]) && InBounds(m[s], GroupBytes(m), |data|)
    ensures var r := Decode(m, data).value; m[s].name in r && r[m[s].name] == Reading(m[s], GroupBytes(m), data)
  {
    DecodeFromReads(m, s, 0, data, map[]);
  }

  lemma {:induction false} DecodeFromSucceeds(m: Model, i: nat, data: seq<Byte>, out: Attributes)
    requires WellFormed(m) && i <= |m| && Need(m) == |data|
    requires forall j :: 0 <= j < |m| ==> !TooWide(m[j], GroupBytes(m))
    requires (i < |m| && Decoded(m[i])) || out != map[]
    ensures DecodeFrom(m, i, data, out).Ok?
    decreases |m| - i
  {
    if i < |m| {
      if Decoded(m[i]) {
        SpanFits(m, i);
        var next := out[m[i].name := Reading(m[i], GroupBytes(m), data)];
        assert m[i].name in next;
        DecodeFromSucceeds(m, i + 1, data, next);
      } else {
        DecodeFromSucceeds(m, i + 1, data, out);
      }
    }
  }

  /** Any bytes of the right number are a status, when the table is narrow enough. */
  lemma DecodeSucceeds(m: Model, data: seq<Byte>)
    requires WellFormed(m) && Need(m) == |data| > 0 && GroupBytes(m) <= 8 && |m| > 0 && Decoded(m[0])
    requires forall j :: 0 <= j < |m| ==> !TooWide(m[j], GroupBytes(m))
    ensures Decode(m, data).Ok?
  {
    DecodeFromSucceeds(m, 0, data, map[]);
  }

  lemma {:induction false} DecodeFromAddsNames(m: Model, i: nat, data: seq<Byte>, out: Attributes, name: string)
    requires i <= |m| && name !in out
    requires forall j :: 0 <= j < |m| ==> m[j].name != name
    requires DecodeFrom(m, i, data, out).Ok?
    ensures name !in DecodeFrom(m, i, data, out).value
    decreases |m| - i
  {
    if i < |m| {
      if Decoded(m[i]) {
        DecodeFromAddsNames(m, i + 1, data, out[m[i].name := Reading(m[i], GroupBytes(m), data)], name);
      } else {
        DecodeFromAddsNames(m, i + 1, data, out, name);
      }
    }
  }

  /** A name the table does not have is not decoded. */
  lemma DecodeAddsNames(m: Model, data: seq<Byte>, name: string)
    requires Decode(m, data).Ok? && forall j :: 0 <= j < |m| ==> m[j].name != name
    ensures name !in Decode(m, data).value
  {
    DecodeFromAddsNames(m, 0, data, map[], name);
  }
}
