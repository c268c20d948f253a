/**
 Reading the K7 lamp's state frame from arbitrarily chunked TCP input (internal/k7tcp), and the
 layout of the schedule push.
 */
module LampFrames {
  import opened Wrappers
  import opened Bytes

  const CHANNELS: nat := 6
  const SLOTS: nat := 24
  const END: Byte := 0xBB
  const MAGIC0: Byte := 0xAB
  const MAGIC1: Byte := 0xAA
  const NAME_MAX: nat := 11

  datatype LampState = LampState(name: seq<Byte>, auto: bool, manual: seq<Byte>, schedule: seq<seq<Byte>>)

  datatype DecodeError = TooShort | BadMagic | BadTerminator | NoManual | BadSlotCount | NoSchedule | NoFrame

  // ---- decoding one frame ----

  const ZERO_ROW: seq<Byte> := [0, 0, 0, 0, 0, 0, 0, 0]

  /** Rows of eight bytes from pos on; rows past the announced count stay zero. */
  function RowsAt(data: seq<Byte>, pos: nat, count: nat): (rows: seq<seq<Byte>>)
    requires pos + 8 * count <= |data| && count <= SLOTS
    ensures |rows| == SLOTS
  {
    seq(SLOTS, i requires 0 <= i < SLOTS => if i < count then data[pos + 8 * i..pos + 8 * i + 8] else ZERO_ROW)
  }

  /** The name goes on at n: before the terminator, within eleven bytes, and not a NUL. */
  predicate InName(data: seq<Byte>, pos: nat, n: nat)
    requires |data| > 0
  {
    n < |data| - 1 && n < pos + NAME_MAX && data[n] != 0
  }

  function NameEnd(data: seq<Byte>, pos: nat, n: nat): (end: nat)
    requires pos <= n <= |data| && |data| > 0
    ensures n <= end <= |data|
    ensures forall k :: n <= k < end ==> InName(data, pos, k)
    ensures !InName(data, pos, end)
    ensures n < |data| ==> end < |data|
    decreases |data| - n
  {
    if InName(data, pos, n) then NameEnd(data, pos, n + 1) else n
  }

  function Decode(data: seq<Byte>): Result<LampState, DecodeError> {
    if |data| < 10 then Err(TooShort)
    else if data[0] != MAGIC0 || data[1] != MAGIC1 then Err(BadMagic)
    else if data[|data| - 1] != END then Err(BadTerminator)
    else if 4 + CHANNELS + 1 > |data| then Err(NoManual)
    else if data[10] > SLOTS then Err(BadSlotCount)
    else if 11 + data[10] * 8 + 2 > |data| then Err(NoSchedule)
    else
      var pos := 11 + data[10] * 8;
      Ok(LampState(data[pos + 1..NameEnd(data, pos + 1, pos + 1)], data[pos] != 0, data[4..10],
                   RowsAt(data, 11, data[10])))
  }

  /** A frame decodes exactly when it starts AB AA, ends BB, announces at most 24 rows and is long enough for them. */
  lemma DecodesExactly(data: seq<Byte>)
    ensures Decode(data).Ok? <==>
      |data| >= 13 && data[0] == 0xAB && data[1] == 0xAA && data[|data| - 1] == 0xBB && data[10] <= 24
      && |data| - 13 >= 8 * (data[10] as int)
  {
  }

  /** And these are its fields, by the place of each byte; rows that were not announced are zero. */
  lemma DecodedBytes(data: seq<Byte>)
    requires Decode(data).Ok?
    ensures var s, c := Decode(data).value, data[10] as int;
      && |s.manual| == 6 && (forall i :: 0 <= i < 6 ==> s.manual[i] == data[4 + i])
      && |s.schedule| == 24
      && (forall h :: 0 <= h < 24 ==> |s.schedule[h]| == 8)
      && (forall h, j :: 0 <= h < 24 && 0 <= j < 8 ==> s.schedule[h][j] == if h < c then data[11 + 8 * h + j] else 0)
      && (s.auto <==> data[11 + 8 * c] != 0)
      && |s.name| <= 11 && (forall i :: 0 <= i < |s.name| ==> s.name[i] == data[12 + 8 * c + i] != 0)
      && (|s.name| == 11 || 13 + 8 * c + |s.name| == |data| || data[12 + 8 * c + |s.name|] == 0)
  {
    var pos := 12 + data[10] * 8;
    assert !InName(data, pos, NameEnd(data, pos, pos));
    NameIsShort(data, pos);
    var name := Decode(data).value.name;
    forall i | 0 <= i < |name| ensures name[i] == data[pos + i] != 0 {
      assert InName(data, pos, pos + i);
    }
  }

  lemma NameIsShort(data: seq<Byte>, pos: nat)
    requires pos < |data|
    ensures var end := NameEnd(data, pos, pos);
      end <= pos + NAME_MAX && end <= |data| - 1
  {
    var end := NameEnd(data, pos, pos);
    if end > pos { assert InName(data, pos, end - 1); }
  }

  method DecodeState(data: seq<Byte>) returns (r: Result<LampState, DecodeError>)
    ensures r == Decode(data)
  {
    if |data| < 10 { return Err(TooShort); }
    if data[0] != MAGIC0 || data[1] != MAGIC1 { return Err(BadMagic); }
    if data[|data| - 1] != END { return Err(BadTerminator); }
    var pos := 4;
    if pos + CHANNELS + 1 > |data| { return Err(NoManual); }
    var manual := new Byte[CHANNELS](_ => 0);
    var i := 0;
    while i < CHANNELS
      invariant 0 <= i <= CHANNELS
      invariant forall k :: 0 <= k < i ==> manual[k] == data[4 + k]
    {
      manual[i] := data[pos + i];
      i := i + 1;
    }
    var channels := manual[..];
    assert channels == data[4..10];
    pos := pos + CHANNELS;
    var timeNum := data[pos];
    pos := pos + 1;
    if timeNum > SLOTS { return Err(BadSlotCount); }
    if pos + timeNum * 8 + 2 > |data| { return Err(NoSchedule); }
    var schedule: seq<seq<Byte>> := seq(SLOTS, _ => ZERO_ROW);
    i := 0;
    while i < timeNum
      invariant 0 <= i <= timeNum && pos == 11 + 8 * i && |schedule| == SLOTS
      invariant forall k :: 0 <= k < i ==> schedule[k] == data[11 + 8 * k..11 + 8 * k + 8]
      invariant forall k :: i <= k < SLOTS ==> schedule[k] == ZERO_ROW
    {
      var row := ReadRow(data, pos);
      schedule := schedule[i := row];
      pos := pos + 8;
      i := i + 1;
    }
    assert schedule == RowsAt(data, 11, timeNum);
    var auto := data[pos] != 0;
    pos := pos + 1;
    var nameEnd := pos;
    while nameEnd < |data| - 1 && nameEnd < pos + NAME_MAX && data[nameEnd] != 0
      invariant pos <= nameEnd <= |data| - 1
      invariant NameEnd(data, pos, pos) == NameEnd(data, pos, nameEnd)
    {
      nameEnd := nameEnd + 1;
    }
    assert NameEnd(data, pos, pos) == nameEnd;
    return Ok(LampState(data[pos..nameEnd], auto, channels, schedule));
  }

  method ReadRow(data: seq<Byte>, pos: nat) returns (row: seq<Byte>)
    requires pos + 8 <= |data|
    ensures row == data[pos..pos + 8]
  {
    row := [];
    var j := 0;
    while j < 8
      invariant 0 <= j <= 8 && row == data[pos..pos + j]
    {
      row := row + [data[pos + j]];
      j := j + 1;
    }
  }

  // ---- finding the frame in a buffer ----

  predicate StartsAt(b: seq<Byte>, i: nat) {
    i + 11 <= |b| && b[i] == MAGIC0 && b[i + 1] == MAGIC1 && b[i + 10] == SLOTS
  }

  method FrameStart(b: seq<Byte>) returns (start: Option<nat>)
    ensures start == FirstStart(b, 0)
  {
    var i := 0;
    while i + 11 <= |b|
      invariant 0 <= i
      invariant FirstStart(b, 0) == FirstStart(b, i)
    {
      if b[i] == MAGIC0 && b[i + 1] == MAGIC1 && b[i + 10] == SLOTS {
        return Some(i);
      }
      i := i + 1;
    }
    return None;
  }

  function FirstStart(b: seq<Byte>, from: nat): (start: Option<nat>)
    ensures start.Some? ==> from <= start.value && StartsAt(b, start.value)
    ensures start.Some? ==> forall k :: from <= k < start.value ==> !StartsAt(b, k)
    ensures start.None? ==> forall k :: from <= k ==> !StartsAt(b, k)
    decreases |b| - from
  {
    if from + 11 > |b| then None
    else if StartsAt(b, from) then Some(from)
    else FirstStart(b, from + 1)
  }

  // ---- the accumulation loop ----

  /** What one look at the buffer gives. */
  function Look(buf: seq<Byte>): Result<LampState, DecodeError> {
    var start := FirstStart(buf, 0);
    if start.None? then Err(NoFrame) else Decode(buf[start.value..])
  }

  /** The first look that decodes, reading one chunk at a time. */
  function Attempt(buf: seq<Byte>, chunks: seq<seq<Byte>>): Result<LampState, DecodeError>
    decreases |chunks|
  {
    if chunks == [] then Look(buf)
    else
      var b := buf + chunks[0];
      if Look(b).Ok? then Look(b) else Attempt(b, chunks[1..])
  }

  /** A read returns between one byte and the size of the temporary buffer. */
  predicate Reads(chunks: seq<seq<Byte>>) {
    forall i :: 0 <= i < |chunks| ==> 1 <= |chunks[i]| <= 256
  }

  /** The chunks are the reads up to the deadline; a read error ends them. */
  method ReadAllAttempt(chunks: seq<seq<Byte>>) returns (r: Result<LampState, DecodeError>)
    ensures r == Attempt([], chunks)
  {
    var buf: seq<Byte> := [];
    var n := 0;
    while n < |chunks|
      invariant 0 <= n <= |chunks|
      invariant Attempt([], chunks) == Attempt(buf, chunks[n..])
    {
      buf := buf + chunks[n];
      var fr := FrameStart(buf);
      if fr.Some? {
        var st := DecodeState(buf[fr.value..]);
        if st.Ok? {
          return st;
        }
      }
      assert chunks[n..][1..] == chunks[n + 1..];
      n := n + 1;
    }
    var fr := FrameStart(buf);
    if fr.Some? {
      r := DecodeState(buf[fr.value..]);
    } else {
      r := Err(NoFrame);
    }
  }

  // ---- a well-formed answer ----

  /** The fields of a state frame; tail is everything between the mode byte and the terminator. */
  datatype Frame = Frame(manual: seq<Byte>, rows: seq<seq<Byte>>, mode: Byte, tail: seq<Byte>)

  predicate IsFrame(f: Frame) {
    && |f.manual| == CHANNELS
    && |f.rows| == SLOTS
    && (forall i :: 0 <= i < SLOTS ==> |f.rows[i]| == 8)
  }

  const HEADER: seq<Byte> := [0xAB, 0xAA, 0x10, 0x08]
  const WRITE_ACK: seq<Byte> := [0xAB, 0xAA, 0xA5, 0xA1]

  function Encoded(f: Frame): seq<Byte> {
    HEADER + f.manual + [SLOTS] + Flatten(f.rows) + [f.mode] + f.tail + [END]
  }

  /** Eleven bytes at most, up to the first NUL. */
  function NameOf(tail: seq<Byte>): (name: seq<Byte>)
    ensures |name| <= |tail| && |name| <= NAME_MAX && name == tail[..|name|]
    ensures forall k :: 0 <= k < |name| ==> name[k] != 0
    ensures |name| < |tail| && |name| < NAME_MAX ==> tail[|name|] == 0
  {
    NamePrefix(tail, 0)
  }

  function NamePrefix(tail: seq<Byte>, n: nat): (name: seq<Byte>)
    requires n <= |tail| && n <= NAME_MAX
    requires forall k :: 0 <= k < n ==> tail[k] != 0
    ensures |name| <= |tail| && |name| <= NAME_MAX && name == tail[..|name|]
    ensures forall k :: 0 <= k < |name| ==> name[k] != 0
    ensures |name| < |tail| && |name| < NAME_MAX ==> tail[|name|] == 0
    decreases |tail| - n
  {
    if n < |tail| && n < NAME_MAX && tail[n] != 0 then NamePrefix(tail, n + 1) else tail[..n]
  }

  /** The state a frame encodes. */
  function StateOf(f: Frame): LampState {
    LampState(NameOf(f.tail), f.mode != 0, f.manual, f.rows)
  }

  function Wire(ack: bool, f: Frame): seq<Byte> {
    (if ack then WRITE_ACK else []) + Encoded(f)
  }

  lemma {:induction false} FlattenRows(rows: seq<seq<Byte>>)
    requires forall i :: 0 <= i < |rows| ==> |rows[i]| == 8
    ensures |Flatten(rows)| == 8 * |rows|
    ensures forall i :: 0 <= i < |rows| ==> Flatten(rows)[8 * i..8 * i + 8] == rows[i]
  {
    if rows != [] {
      FlattenRows(rows[1..]);
      forall i | 0 <= i < |rows| ensures Flatten(rows)[8 * i..8 * i + 8] == rows[i] {
        if i > 0 {
          assert rows[i] == rows[1..][i - 1];
          assert Flatten(rows)[8 * i..8 * i + 8] == Flatten(rows[1..])[8 * (i - 1)..8 * (i - 1) + 8];
        }
      }
    }
  }

  /** Offset of the tail. */
  const TAIL_AT: nat := 204

  lemma Layout(f: Frame)
    requires IsFrame(f)
    ensures var e := Encoded(f);
            && |e| == TAIL_AT + |f.tail| + 1
            && e[..4] == HEADER && e[4..10] == f.manual && e[10] == SLOTS
            && e[11..203] == Flatten(f.rows) && e[203] == f.mode
            && e[TAIL_AT..|e| - 1] == f.tail && e[|e| - 1] == END
  {
    FlattenRows(f.rows);
  }

  /** A prefix of a frame that is long enough and ends in the terminator byte decodes to its fields. */
  lemma DecodePrefix(f: Frame, n: nat)
    requires IsFrame(f) && n <= |Encoded(f)|
    ensures n < 205 || Encoded(f)[n - 1] != END ==> Decode(Encoded(f)[..n]).Err?
    ensures n >= 205 && Encoded(f)[n - 1] == END ==>
              var r := Decode(Encoded(f)[..n]);
              && r.Ok? && r.value.auto == (f.mode != 0) && r.value.manual == f.manual && r.value.schedule == f.rows
              && |r.value.name| <= n - 205
              && r.value.name == Encoded(f)[TAIL_AT..NameEnd(Encoded(f)[..n], TAIL_AT, TAIL_AT)]
  {
    var e := Encoded(f);
    var d := e[..n];
    Layout(f);
    if n >= 11 {
      assert d[10] == e[10] && d[0] == e[..4][0] && d[1] == e[..4][1];
    }
    if n >= 205 && e[n - 1] == END {
      assert d[4..10] == e[4..10];
      RowsDecode(f, d);
    }
  }

  lemma SliceOfPrefix(e: seq<Byte>, d: seq<Byte>, lo: nat, hi: nat)
    requires d <= e && lo <= hi <= |d|
    ensures d[lo..hi] == e[lo..hi]
  {
  }

  lemma SliceOfSlice(e: seq<Byte>, from: nat, to: nat, lo: nat, hi: nat)
    requires from <= to <= |e| && lo <= hi <= to - from
    ensures e[from..to][lo..hi] == e[from + lo..from + hi]
  {
    var a, b := e[from..to][lo..hi], e[from + lo..from + hi];
    assert forall k :: 0 <= k < hi - lo ==> a[k] == e[from..to][lo + k] == b[k];
  }

  lemma RowsDecode(f: Frame, d: seq<Byte>)
    requires IsFrame(f) && |d| >= 205 && |d| <= |Encoded(f)| && d == Encoded(f)[..|d|]
    ensures RowsAt(d, 11, SLOTS) == f.rows && d[203] == f.mode
  {
    Layout(f);
    FlattenRows(f.rows);
    forall i | 0 <= i < SLOTS ensures RowsAt(d, 11, SLOTS)[i] == f.rows[i] {
      var lo := 11 + 8 * i;
      SliceOfPrefix(Encoded(f), d, lo, lo + 8);
      SliceOfSlice(Encoded(f), 11, 203, 8 * i, 8 * i + 8);
    }
  }

  /** Where the name stops in a prefix that ends in the terminator byte. */
  lemma PrefixName(f: Frame, n: nat)
    requires IsFrame(f) && 205 <= n <= |Encoded(f)| && Encoded(f)[n - 1] == END
    ensures var end := NameEnd(Encoded(f)[..n], TAIL_AT, TAIL_AT);
            end == TAIL_AT + (if |NameOf(f.tail)| <= n - 205 then |NameOf(f.tail)| else n - 205)
  {
    var e := Encoded(f);
    var d := e[..n];
    var name := NameOf(f.tail);
    Layout(f);
    forall k | TAIL_AT <= k < |e| - 1 ensures e[k] == f.tail[k - TAIL_AT] {
      assert e[TAIL_AT..|e| - 1][k - TAIL_AT] == e[k];
    }
    var want := TAIL_AT + (if |name| <= n - 205 then |name| else n - 205);
    forall k | TAIL_AT <= k < want ensures InName(d, TAIL_AT, k) {
      assert name[k - TAIL_AT] == f.tail[k - TAIL_AT];
    }
    assert !InName(d, TAIL_AT, want);
    NameEndIs(d, TAIL_AT, TAIL_AT, want);
  }

  lemma {:induction false} NameEndIs(data: seq<Byte>, pos: nat, n: nat, end: nat)
    requires |data| > 0 && pos <= n <= end <= |data|
    requires forall k :: n <= k < end ==> InName(data, pos, k)
    requires !InName(data, pos, end)
    ensures NameEnd(data, pos, n) == end
    decreases end - n
  {
    if n < end { NameEndIs(data, pos, n + 1, end); }
  }

  // ---- main results ----

  /** No terminator byte inside the name, and no write-ack that the third manual channel completes. */
  predicate Unambiguous(ack: bool, f: Frame)
    requires IsFrame(f)
  {
    END !in NameOf(f.tail) && !(ack && f.manual[2] == SLOTS)
  }

  function Offset(ack: bool): nat {
    if ack then 4 else 0
  }

  lemma WireAt(ack: bool, f: Frame, n: nat)
    requires IsFrame(f) && n <= |Wire(ack, f)|
    ensures var w, off := Wire(ack, f), Offset(ack);
            && |w| == off + |Encoded(f)| && w[off..] == Encoded(f)
            && (n >= off ==> w[..n][off..] == Encoded(f)[..n - off])
  {
  }

  /** The bytes the search for the frame looks at. */
  lemma WireBytes(ack: bool, f: Frame)
    requires IsFrame(f)
    ensures var w, off := Wire(ack, f), Offset(ack);
            && |w| >= off + 205
            && w[off] == MAGIC0 && w[off + 1] == MAGIC1 && w[off + 6] == f.manual[2] && w[off + 10] == SLOTS
            && (ack ==> w[0] == MAGIC0 && w[1] == MAGIC1 && w[2] == 0xA5 && w[3] == 0xA1 && w[6] == 0x10)
  {
    Layout(f);
    WireAt(ack, f, |Wire(ack, f)|);
    var w, e, off := Wire(ack, f), Encoded(f), Offset(ack);
    assert forall k :: 0 <= k < |e| ==> e[k] == w[off..][k];
    assert e[..4][0] == e[0] && e[..4][1] == e[1] && e[..4][2] == e[2] && e[4..10][2] == e[6];
  }

  lemma FirstStartIs(b: seq<Byte>, i: nat)
    requires forall k :: 0 <= k < i ==> !StartsAt(b, k)
    ensures StartsAt(b, i) ==> FirstStart(b, 0) == Some(i)
    ensures |b| < i + 11 ==> FirstStart(b, 0) == None
  {
  }

  /** The frame is found at its place, unless the acknowledgement looks like a frame itself. */
  lemma StartInPrefix(ack: bool, f: Frame, n: nat)
    requires IsFrame(f) && n <= |Wire(ack, f)|
    ensures var start := FirstStart(Wire(ack, f)[..n], 0);
            if ack && f.manual[2] == SLOTS then n >= 11 ==> start == Some(0)
            else start == if n >= Offset(ack) + 11 then Some(Offset(ack)) else None
  {
    var b, off := Wire(ack, f)[..n], Offset(ack);
    WireBytes(ack, f);
    if ack && f.manual[2] == SLOTS {
      FirstStartIs(b, 0);
    } else {
      FirstStartIs(b, off);
    }
  }

  /** Looking at a prefix of the answer is decoding the part of the frame that has arrived. */
  lemma LookIsDecode(ack: bool, f: Frame, n: nat)
    requires IsFrame(f) && !(ack && f.manual[2] == SLOTS) && n <= |Wire(ack, f)|
    ensures n < Offset(ack) + 11 ==> Look(Wire(ack, f)[..n]).Err?
    ensures n >= Offset(ack) + 11 ==>
              n - Offset(ack) <= |Encoded(f)| && Look(Wire(ack, f)[..n]) == Decode(Encoded(f)[..n - Offset(ack)])
  {
    StartInPrefix(ack, f, n);
    WireAt(ack, f, n);
  }

  /** A prefix of a frame without terminator byte in its name gives nothing or the right state. */
  lemma DecodeUnambiguous(f: Frame, m: nat)
    requires IsFrame(f) && END !in NameOf(f.tail) && m <= |Encoded(f)|
    ensures var r := Decode(Encoded(f)[..m]);
            && (r.Ok? ==> r.value == StateOf(f))
            && (m == |Encoded(f)| ==> r.Ok?)
  {
    var e := Encoded(f);
    DecodePrefix(f, m);
    Layout(f);
    if m >= 205 && e[m - 1] == END {
      PrefixName(f, m);
      NameInFrame(f);
    }
  }

  lemma NameInFrame(f: Frame)
    requires IsFrame(f)
    ensures var k := TAIL_AT + |NameOf(f.tail)|; k <= |Encoded(f)| && Encoded(f)[TAIL_AT..k] == NameOf(f.tail)
  {
    Layout(f);
    var e := Encoded(f);
    assert e[TAIL_AT..TAIL_AT + |NameOf(f.tail)|] == e[TAIL_AT..|e| - 1][..|NameOf(f.tail)|];
  }

  /** Looking at a prefix of an unambiguous answer gives nothing or the right state. */
  lemma LookAtPrefix(ack: bool, f: Frame, n: nat)
    requires IsFrame(f) && Unambiguous(ack, f) && n <= |Wire(ack, f)|
    ensures var r := Look(Wire(ack, f)[..n]);
            && (r.Ok? ==> r.value == StateOf(f))
            && (n == |Wire(ack, f)| ==> r.Ok?)
  {
    LookIsDecode(ack, f, n);
    Layout(f);
    if n >= Offset(ack) + 11 {
      DecodeUnambiguous(f, n - Offset(ack));
    }
  }

  lemma {:induction false} AttemptOnSuffix(ack: bool, f: Frame, n: nat, chunks: seq<seq<Byte>>)
    requires IsFrame(f) && Unambiguous(ack, f) && n <= |Wire(ack, f)|
    requires Wire(ack, f)[n..] == Flatten(chunks)
    ensures Attempt(Wire(ack, f)[..n], chunks) == Ok(StateOf(f))
    decreases |chunks|
  {
    var w := Wire(ack, f);
    if chunks == [] {
      assert n == |w|;
      LookAtPrefix(ack, f, n);
    } else {
      var m := n + |chunks[0]|;
      assert w[n..m] == chunks[0] by { assert w[n..][..|chunks[0]|] == chunks[0]; }
      assert w[..n] + chunks[0] == w[..m];
      assert w[m..] == Flatten(chunks[1..]) by { assert w[n..][|chunks[0]|..] == w[m..]; }
      LookAtPrefix(ack, f, m);
      AttemptOnSuffix(ack, f, m, chunks[1..]);
    }
  }

  /** Every chunking of an unambiguous answer is read as exactly the encoded state. */
  lemma ChunkingDoesNotMatter(ack: bool, f: Frame, chunks: seq<seq<Byte>>)
    requires IsFrame(f) && Unambiguous(ack, f) && Flatten(chunks) == Wire(ack, f)
    ensures Attempt([], chunks) == Ok(StateOf(f))
  {
    assert Wire(ack, f)[0..] == Wire(ack, f) && Wire(ack, f)[..0] == [];
    AttemptOnSuffix(ack, f, 0, chunks);
  }

  function Singles(s: seq<Byte>): (chunks: seq<seq<Byte>>)
    ensures Reads(chunks) && Flatten(chunks) == s
  {
    if s == [] then [] else [[s[0]]] + Singles(s[1..])
  }

  /** Some chunking of an ambiguous answer is read as another state, or not at all. */
  lemma AmbiguousIsMisread(ack: bool, f: Frame) returns (chunks: seq<seq<Byte>>)
    requires IsFrame(f) && !Unambiguous(ack, f)
    ensures Reads(chunks) && Flatten(chunks) == Wire(ack, f) && Attempt([], chunks) != Ok(StateOf(f))
  {
    var w := Wire(ack, f);
    if ack && f.manual[2] == SLOTS {
      chunks := Singles(w);
      assert w[..0] == [] && w[0..] == w;
      MisalignedForever(f, 0, chunks);
    } else {
      chunks := EarlyTerminator(ack, f);
    }
  }

  /** When the first read ends in a frame that decodes, the rest is not looked at. */
  lemma AttemptFirst(first: seq<Byte>, rest: seq<seq<Byte>>)
    requires Look(first).Ok?
    ensures Attempt([], [first] + rest) == Look(first)
  {
    assert [] + ([first] + rest)[0] == first;
  }

  lemma SplitOff(first: seq<Byte>, rest: seq<Byte>)
    requires 1 <= |first| <= 256
    ensures Reads([first] + Singles(rest)) && Flatten([first] + Singles(rest)) == first + rest
  {
    assert ([first] + Singles(rest))[1..] == Singles(rest);
  }

  lemma FirstLookWins(w: seq<Byte>, n: nat) returns (chunks: seq<seq<Byte>>)
    requires 0 < n <= |w| && n <= 256 && Look(w[..n]).Ok?
    ensures Reads(chunks) && Flatten(chunks) == w && Attempt([], chunks) == Look(w[..n])
  {
    chunks := [w[..n]] + Singles(w[n..]);
    AttemptFirst(w[..n], Singles(w[n..]));
    SplitOff(w[..n], w[n..]);
    assert w[..n] + w[n..] == w;
  }

  /** A terminator byte inside the name ends the frame early when a read ends there. */
  lemma EarlyTerminator(ack: bool, f: Frame) returns (chunks: seq<seq<Byte>>)
    requires IsFrame(f) && END in NameOf(f.tail) && !(ack && f.manual[2] == SLOTS)
    ensures Reads(chunks) && Flatten(chunks) == Wire(ack, f) && Attempt([], chunks) != Ok(StateOf(f))
  {
    var name := NameOf(f.tail);
    var k :| 0 <= k < |name| && name[k] == END;
    CutName(ack, f, k);
    chunks := FirstLookWins(Wire(ack, f), Offset(ack) + TAIL_AT + k + 1);
  }

  lemma CutName(ack: bool, f: Frame, k: nat)
    requires IsFrame(f) && !(ack && f.manual[2] == SLOTS)
    requires k < |NameOf(f.tail)| && NameOf(f.tail)[k] == END
    ensures var n := Offset(ack) + TAIL_AT + k + 1;
            && n <= |Wire(ack, f)|
            && var r := Look(Wire(ack, f)[..n]); r.Ok? && |r.value.name| == k
  {
    var e, m := Encoded(f), TAIL_AT + k + 1;
    Layout(f);
    assert e[TAIL_AT..|e| - 1][k] == e[m - 1];
    LookIsDecode(ack, f, Offset(ack) + m);
    DecodePrefix(f, m);
    PrefixName(f, m);
  }

  /** With the acknowledgement taken for a frame, the manual channels are read four bytes off. */
  lemma {:induction false} MisalignedForever(f: Frame, n: nat, chunks: seq<seq<Byte>>)
    requires IsFrame(f) && f.manual[2] == SLOTS && n <= |Wire(true, f)|
    requires Wire(true, f)[n..] == Flatten(chunks)
    ensures Attempt(Wire(true, f)[..n], chunks) != Ok(StateOf(f))
    decreases |chunks|
  {
    var w := Wire(true, f);
    MisalignedLook(f, n);
    if chunks != [] {
      var m := n + |chunks[0]|;
      assert w[n..m] == chunks[0] by { assert w[n..][..|chunks[0]|] == chunks[0]; }
      assert w[..n] + chunks[0] == w[..m];
      assert w[m..] == Flatten(chunks[1..]) by { assert w[n..][|chunks[0]|..] == w[m..]; }
      MisalignedLook(f, m);
      MisalignedForever(f, m, chunks[1..]);
    }
  }

  lemma MisalignedLook(f: Frame, n: nat)
    requires IsFrame(f) && f.manual[2] == SLOTS && n <= |Wire(true, f)|
    ensures Look(Wire(true, f)[..n]) != Ok(StateOf(f))
  {
    var w := Wire(true, f);
    var b := w[..n];
    StartInPrefix(true, f, n);
    Layout(f);
    if n >= 11 {
      assert b[0..] == b;
      assert w[6] == 0x10;
      if Decode(b).Ok? {
        assert Decode(b).value.manual[2] == b[4..10][2] == b[6] == 0x10;
      }
    }
  }

  /** Chunking never matters exactly for the unambiguous answers. */
  lemma ReaderIsChunkIndependent(ack: bool, f: Frame)
    requires IsFrame(f)
    ensures (forall chunks :: Reads(chunks) && Flatten(chunks) == Wire(ack, f) ==> Attempt([], chunks) == Ok(StateOf(f)))
            <==> Unambiguous(ack, f)
  {
    if Unambiguous(ack, f) {
      forall chunks | Reads(chunks) && Flatten(chunks) == Wire(ack, f)
        ensures Attempt([], chunks) == Ok(StateOf(f))
      {
        ChunkingDoesNotMatter(ack, f, chunks);
      }
    } else {
      var chunks := AmbiguousIsMisread(ack, f);
    }
  }

  // ---- the schedule push ----

  const PUSH_HEADER: seq<Byte> := [0xAA, 0xA5, 0x10, 0x07]

  function PushPacket(manual: seq<Byte>, rows: seq<seq<Byte>>, auto: bool, clock: seq<Byte>): seq<Byte> {
    PUSH_HEADER + manual + [SLOTS] + Flatten(rows) + [if auto then 1 else 0] + clock + [END]
  }

  method PushSchedule(manual: seq<Byte>, rows: seq<seq<Byte>>, auto: bool, clock: seq<Byte>)
    returns (packet: seq<Byte>)
    requires |rows| == SLOTS
    ensures packet == PushPacket(manual, rows, auto, clock)
  {
    var data := manual;
    data := data + [SLOTS];
    var i := 0;
    while i < SLOTS
      invariant 0 <= i <= SLOTS && data + Flatten(rows[i..]) == manual + [SLOTS] + Flatten(rows)
    {
      assert rows[i..][1..] == rows[i + 1..];
      assert data + Flatten(rows[i..]) == (data + rows[i]) + Flatten(rows[i + 1..]);
      data := data + rows[i];
      i := i + 1;
    }
    assert data == data + Flatten(rows[SLOTS..]);
    if auto { data := data + [1]; } else { data := data + [0]; }
    data := data + clock;
    packet := PUSH_HEADER + data + [END];
    assert packet == PushPacket(manual, rows, auto, clock);
  }

  lemma RowByte(rows: seq<seq<Byte>>, h: nat, j: nat)
    requires |rows| == SLOTS && (forall i :: 0 <= i < SLOTS ==> |rows[i]| == 8) && h < SLOTS && j < 8
    ensures |Flatten(rows)| == 192 && Flatten(rows)[8 * h + j] == rows[h][j]
  {
    FlattenRows(rows);
    assert Flatten(rows)[8 * h..8 * h + 8][j] == rows[h][j];
  }

  /** Every byte of a push, by its place. */
  lemma PushBytes(manual: seq<Byte>, rows: seq<seq<Byte>>, auto: bool, clock: seq<Byte>)
    requires |manual| == 6 && |clock| == 3 && |rows| == 24 && forall i :: 0 <= i < 24 ==> |rows[i]| == 8
    ensures var p := PushPacket(manual, rows, auto, clock);
      && |p| == 208 && p[0] == 0xAA && p[1] == 0xA5 && p[2] == 0x10 && p[3] == 0x07
      && (forall i :: 0 <= i < 6 ==> p[4 + i] == manual[i]) && p[10] == 24
      && (forall h, j :: 0 <= h < 24 && 0 <= j < 8 ==> p[11 + (8 * h + j)] == rows[h][j])
      && p[203] == (if auto then 1 else 0) && p[204] == clock[0] && p[205] == clock[1] && p[206] == clock[2]
      && p[207] == 0xBB
  {
    var p := PushPacket(manual, rows, auto, clock);
    RowByte(rows, 0, 0);
    assert p[11..203] == Flatten(rows);
    forall h: nat, j: nat | h < 24 && j < 8 ensures p[11 + (8 * h + j)] == rows[h][j] {
      RowByte(rows, h, j);
      assert p[11..203][8 * h + j] == rows[h][j];
    }
  }

  /** The bytes that a push and a state frame share. */
  function Body(manual: seq<Byte>, rows: seq<seq<Byte>>, mode: Byte): seq<Byte> {
    manual + [SLOTS] + Flatten(rows) + [mode]
  }

  lemma PushLayout(f: Frame, auto: bool, clock: seq<Byte>)
    requires IsFrame(f) && f.mode == (if auto then 1 else 0)
    ensures var e, p := Encoded(f), PushPacket(f.manual, f.rows, auto, clock);
            |e| >= TAIL_AT && |p| >= TAIL_AT && e[4..TAIL_AT] == p[4..TAIL_AT]
  {
    var body := Body(f.manual, f.rows, f.mode);
    assert Encoded(f) == HEADER + body + f.tail + [END];
    assert PushPacket(f.manual, f.rows, auto, clock) == PUSH_HEADER + body + clock + [END];
    FlattenRows(f.rows);
    assert |body| == 200;
  }

  /**
   A state frame that repeats what was pushed carries the pushed bytes at the same place, and reading
   it back, in any chunks, gives the pushed channels, rows and mode.
   */
  lemma PushIsReadBack(f: Frame, auto: bool, clock: seq<Byte>, ack: bool, chunks: seq<seq<Byte>>)
    requires IsFrame(f) && f.mode == (if auto then 1 else 0)
    requires Unambiguous(ack, f) && Flatten(chunks) == Wire(ack, f)
    ensures var e, p := Encoded(f), PushPacket(f.manual, f.rows, auto, clock);
            |e| >= TAIL_AT && |p| >= TAIL_AT && e[4..TAIL_AT] == p[4..TAIL_AT]
    ensures var r := Attempt([], chunks);
            && r.Ok? && r.value.manual == f.manual && r.value.schedule == f.rows && r.value.auto == auto
  {
    PushLayout(f, auto, clock);
    ChunkingDoesNotMatter(ack, f, chunks);
  }
}
