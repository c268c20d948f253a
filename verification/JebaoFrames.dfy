/**
 The JEBAO LAN frame codec (internal/jebao/protocol.go): a fixed header, a length in unsigned LEB128
 (section 7.6 of DWARF 5) of at most three bytes, and a body holding a zero, the command and the
 payload.
 */
module JebaoFrames {
  import opened Wrappers
  import opened Bytes

  const MAX_FRAME: nat := 65536
  const HEADER: seq<Byte> := [0, 0, 0, 3]

  type Command = c: int | 0 <= c < 65536

  datatype Frame = Frame(cmd: Command, payload: seq<Byte>)

  datatype ReadError = EndOfInput | BadHeader | TooLarge | TooShort | BadLength

  function Leb(n: nat): (bytes: seq<Byte>)
    ensures |bytes| >= 1
  {
    if n <= 127 then [n] else [n % 128 + 128] + Leb(n / 128)
  }

  function Body(f: Frame): seq<Byte> {
    [0, f.cmd / 256, f.cmd % 256] + f.payload
  }

  function Packet(f: Frame): seq<Byte> {
    HEADER + Leb(|Body(f)|) + Body(f)
  }

  method BuildPacket(cmd: Command, payload: seq<Byte>) returns (p: seq<Byte>)
    ensures p == Packet(Frame(cmd, payload))
  {
    var body := [0, cmd / 256, cmd % 256] + payload;
    p := [0, 0, 0, 3];
    var n: nat := |body|;
    var more := true;
    while more
      invariant more ==> p + Leb(n) == HEADER + Leb(|body|)
      invariant !more ==> p == HEADER + Leb(|body|)
      decreases more, n
    {
      var v := n % 128;
      if n > 127 {
        v := v + 128;
        assert p + Leb(n) == p + [v] + Leb(n / 128);
      }
      p := p + [v];
      if n <= 127 {
        more := false;
      } else {
        n := n / 128;
      }
    }
    p := p + body;
  }

  // ---- reading ----

  /** v moved up by i groups of seven bits. */
  function Shift(v: nat, i: nat): nat
    requires i <= 3
  {
    if i == 0 then v else if i == 1 then 128 * v else if i == 2 then 16384 * v else 2097152 * v
  }

  /** A big-endian 16-bit number. */
  function Word(hi: Byte, lo: Byte): Command {
    hi * 256 + lo
  }

  datatype Outcome = Outcome(result: Result<Frame, ReadError>, rest: seq<Byte>)

  /** The body of n bytes, once the length is known. */
  function ReadRest(s: seq<Byte>, n: nat): Outcome {
    if n < 3 then Outcome(Err(TooShort), s)
    else if |s| < n then Outcome(Err(EndOfInput), [])
    else Outcome(Ok(Frame(Word(s[1], s[2]), s[3..n])), s[n..])
  }

  /** The length bytes from number i on, n being the value so far, and the body. */
  function ReadBody(s: seq<Byte>, i: nat, n: nat): Outcome
    requires i <= 3 && n < Shift(1, i)
    decreases |s|
  {
    if i == 3 then Outcome(Err(BadLength), s)
    else if s == [] then Outcome(Err(EndOfInput), [])
    else
      var n1 := n + Shift(s[0] % 128, i);
      var rest := s[1..];
      if n1 > MAX_FRAME then Outcome(Err(TooLarge), rest)
      else if s[0] >= 128 then ReadBody(rest, i + 1, n1)
      else ReadRest(rest, n1)
  }

  function Read(s: seq<Byte>): Outcome {
    if |s| < 4 then Outcome(Err(EndOfInput), [])
    else if s[..4] != HEADER then Outcome(Err(BadHeader), s[4..])
    else ReadBody(s[4..], 0, 0)
  }

  /** A buffered connection: the bytes not read yet. */
  class Reader {
    var rest: seq<Byte>

    constructor (input: seq<Byte>)
      ensures rest == input
    {
      rest := input;
    }

    /** Fails, having consumed what there was, when fewer than n bytes are left. */
    method ReadFull(n: nat) returns (r: Option<seq<Byte>>)
      modifies this
      ensures n <= |old(rest)| ==> r == Some(old(rest)[..n]) && rest == old(rest)[n..]
      ensures n > |old(rest)| ==> r == None && rest == []
    {
      if n > |rest| {
        rest := [];
        return None;
      }
      r := Some(rest[..n]);
      rest := rest[n..];
    }

    method ReadFrame() returns (r: Result<Frame, ReadError>)
      modifies this
      ensures Outcome(r, rest) == Read(old(rest))
    {
      var header := ReadFull(4);
      if header.None? { return Err(EndOfInput); }
      if header.value != HEADER { return Err(BadHeader); }
      var n := 0;
      var i := 0;
      while i < 3
        invariant 0 <= i <= 3 && 0 <= n < Shift(1, i)
        invariant Read(old(rest)) == ReadBody(rest, i, n)
      {
        var b := ReadFull(1);
        if b.None? { return Err(EndOfInput); }
        // the new seven bits are above those of n, so the bitwise or is a sum
        n := n + Shift(b.value[0] % 128, i);
        if n > MAX_FRAME { return Err(TooLarge); }
        if b.value[0] < 128 {
          if n < 3 { return Err(TooShort); }
          var body := ReadFull(n);
          if body.None? { return Err(EndOfInput); }
          return Ok(Frame(Word(body.value[1], body.value[2]), body.value[3..]));
        }
        i := i + 1;
      }
      return Err(BadLength);
    }
  }

  // ---- main results ----

  predicate Fits(f: Frame) {
    |f.payload| + 3 <= MAX_FRAME
  }

  /** A length byte that announces another one. */
  lemma ReadMore(d: nat, tail: seq<Byte>, i: nat, n: nat)
    requires i < 3 && n < Shift(1, i) && d < 128 && n + Shift(d, i) <= MAX_FRAME
    ensures n + Shift(d, i) < Shift(1, i + 1)
    ensures ReadBody([d + 128] + tail, i, n) == ReadBody(tail, i + 1, n + Shift(d, i))
  {
    var s := [d + 128] + tail;
    assert s[1..] == tail && s[0] % 128 == d;
  }

  /** Splitting m into its low seven bits and the rest. */
  lemma ShiftSplits(m: nat, i: nat)
    requires i < 3
    ensures Shift(m % 128, i) + Shift(m / 128, i + 1) == Shift(m, i)
    ensures i == 2 && m > 127 ==> Shift(m, i) > MAX_FRAME + 3
  {
    assert m == m % 128 + 128 * (m / 128);
  }

  /** The last length byte. */
  lemma ReadFinal(b: Byte, tail: seq<Byte>, i: nat, n: nat)
    requires i < 3 && n < Shift(1, i) && b < 128 && n + Shift(b, i) <= MAX_FRAME
    ensures ReadBody([b] + tail, i, n) == ReadRest(tail, n + Shift(b, i))
  {
    var s := [b] + tail;
    assert s[1..] == tail && s[0] % 128 == b;
  }

  lemma LebSplits(m: nat, tail: seq<Byte>)
    requires m > 127
    ensures Leb(m) + tail == [m % 128 + 128] + (Leb(m / 128) + tail)
  {
  }

  /** Length bytes that encode m, read from position i on, add m times the weight of that position. */
  lemma {:induction false} ReadLeb(m: nat, tail: seq<Byte>, i: nat, n: nat)
    requires i < 3 && n < Shift(1, i) && n + Shift(m, i) <= MAX_FRAME
    ensures ReadBody(Leb(m) + tail, i, n) == ReadRest(tail, n + Shift(m, i))
    decreases 3 - i
  {
    if m <= 127 {
      ReadFinal(m, tail, i, n);
    } else {
      ShiftSplits(m, i);
      var d, q, more := m % 128, m / 128, Leb(m / 128) + tail;
      var next := n + Shift(d, i);
      assert next + Shift(q, i + 1) == n + Shift(m, i);
      calc {
        ReadBody(Leb(m) + tail, i, n);
      == { LebSplits(m, tail); }
        ReadBody([d + 128] + more, i, n);
      == { ReadMore(d, more, i, n); }
        ReadBody(more, i + 1, next);
      == { ReadMore(d, more, i, n); ReadLeb(q, tail, i + 1, next); }
        ReadRest(tail, next + Shift(q, i + 1));
      }
    }
  }

  /** One packet is read back, and nothing after it is touched. */
  lemma PacketIsReadBack(f: Frame, rest: seq<Byte>)
    requires Fits(f)
    ensures Read(Packet(f) + rest) == Outcome(Ok(f), rest)
  {
    var s := Packet(f) + rest;
    assert s[..4] == HEADER;
    assert s[4..] == Leb(|Body(f)|) + (Body(f) + rest);
    ReadLeb(|Body(f)|, Body(f) + rest, 0, 0);
    assert (Body(f) + rest)[3..|Body(f)|] == f.payload && (Body(f) + rest)[|Body(f)|..] == rest;
  }

  function Stream(fs: seq<Frame>): seq<Byte> {
    if fs == [] then [] else Packet(fs[0]) + Stream(fs[1..])
  }

  /** The first k frames of the input, or None when one of them is not read. */
  function ReadMany(s: seq<Byte>, k: nat): Option<(seq<Frame>, seq<Byte>)>
    decreases k
  {
    if k == 0 then Some(([], s))
    else
      var first := Read(s);
      if first.result.Err? then None
      else
        var more := ReadMany(first.rest, k - 1);
        if more.None? then None else Some(([first.result.value] + more.value.0, more.value.1))
  }

  /** Reading the concatenation of any packets gives exactly those commands and payloads. */
  lemma {:induction false} StreamIsReadBack(fs: seq<Frame>)
    requires forall i :: 0 <= i < |fs| ==> Fits(fs[i])
    ensures ReadMany(Stream(fs), |fs|) == Some((fs, []))
  {
    if fs != [] {
      PacketIsReadBack(fs[0], Stream(fs[1..]));
      StreamIsReadBack(fs[1..]);
      assert [fs[0]] + fs[1..] == fs;
    }
  }

  lemma ReadTooLarge(b: Byte, tail: seq<Byte>, i: nat, n: nat)
    requires i < 3 && n < Shift(1, i) && n + Shift(b % 128, i) > MAX_FRAME
    ensures ReadBody([b] + tail, i, n).result == Err(TooLarge)
  {
    assert ([b] + tail)[0] == b;
  }

  lemma {:induction false} LongLeb(m: nat, i: nat, n: nat, tail: seq<Byte>)
    requires i < 3 && n < Shift(1, i) && n <= MAX_FRAME && n + Shift(m, i) > MAX_FRAME
    ensures var r := ReadBody(Leb(m) + tail, i, n).result; r == Err(TooLarge) || r == Err(BadLength)
    decreases 3 - i
  {
    if m <= 127 {
      ReadTooLarge(m, tail, i, n);
    } else {
      var d, q := m % 128, m / 128;
      LebSplits(m, tail);
      ShiftSplits(m, i);
      if n + Shift(d, i) > MAX_FRAME {
        ReadTooLarge(d + 128, Leb(q) + tail, i, n);
      } else {
        ReadMore(d, Leb(q) + tail, i, n);
        if i < 2 { LongLeb(q, i + 1, n + Shift(d, i), tail); }
      }
    }
  }

  /** A packet is readable exactly when its body fits. */
  lemma LongPacketsAreRejected(f: Frame, rest: seq<Byte>)
    ensures Read(Packet(f) + rest).result.Ok? <==> |f.payload| + 3 <= 65536
    ensures |f.payload| + 3 > 65536 ==> var r := Read(Packet(f) + rest).result; r == Err(TooLarge) || r == Err(BadLength)
  {
    if Fits(f) {
      PacketIsReadBack(f, rest);
    } else {
      var s := Packet(f) + rest;
      assert s[..4] == HEADER;
      assert s[4..] == Leb(|Body(f)|) + (Body(f) + rest);
      LongLeb(|Body(f)|, 0, 0, Body(f) + rest);
    }
  }

  lemma {:induction false} CutLeb(m: nat, k: nat, i: nat, n: nat)
    requires i < 3 && n < Shift(1, i) && n + Shift(m, i) <= MAX_FRAME
    requires k < |Leb(m)|
    ensures ReadBody(Leb(m)[..k], i, n).result == Err(EndOfInput)
    decreases 3 - i
  {
    if k > 0 {
      ShiftSplits(m, i);
      assert Leb(m)[..k] == [m % 128 + 128] + Leb(m / 128)[..k - 1];
      ReadMore(m % 128, Leb(m / 128)[..k - 1], i, n);
      CutLeb(m / 128, k - 1, i + 1, n + Shift(m % 128, i));
    }
  }

  /** The number in length bytes: seven bits each, low ones first, all but the last marked. */
  predicate CountsTo(b: seq<Byte>, n: nat) {
    || (|b| == 1 && b[0] < 128 && n == b[0])
    || (|b| == 2 && b[0] >= 128 && b[1] < 128 && n == b[0] - 128 + 128 * (b[1] as int))
    || (|b| == 3 && b[0] >= 128 && b[1] >= 128 && b[2] < 128 && n == b[0] - 128 + 128 * (b[1] - 128) + 16384 * (b[2] as int))
  }

  /** The command with its high byte first, between a zero and the payload. */
  predicate CarriesCommand(body: seq<Byte>, f: Frame) {
    |body| == 3 + |f.payload| && body[0] == 0 && f.cmd == 256 * (body[1] as int) + body[2] && body[3..] == f.payload
  }

  /** A packet on the wire: 00 00 00 03, the length of what follows in one to three bytes, and then that many. */
  lemma PacketOnTheWire(f: Frame) returns (k: nat)
    requires Fits(f)
    ensures var p := Packet(f);
      && 1 <= k <= 3 && |p| == 4 + k + 3 + |f.payload| && p[..4] == [0, 0, 0, 3]
      && CountsTo(p[4..4 + k], 3 + |f.payload|) && CarriesCommand(p[4 + k..], f)
  {
    var n := |Body(f)|;
    LebBytes(n);
    k := |Leb(n)|;
    assert Packet(f)[4..4 + k] == Leb(n);
    assert Packet(f)[4 + k..] == Body(f);
    assert CountsTo(Leb(n), n);
    BodyCarries(f);
  }

  lemma BodyCarries(f: Frame)
    ensures CarriesCommand(Body(f), f)
  {
  }

  lemma LebTwo(n: nat)
    requires 128 <= n < 16384
    ensures n / 128 < 128 && Leb(n) == [n % 128 + 128, n / 128]
  {
    assert Leb(n / 128) == [n / 128];
  }

  lemma LebThree(n: nat)
    requires 16384 <= n <= MAX_FRAME
    ensures n / 16384 < 128 && Leb(n) == [n % 128 + 128, n / 128 % 128 + 128, n / 16384]
  {
    var q := n / 128;
    LebTwo(q);
    assert q / 128 == n / 16384;
    assert Leb(n) == [n % 128 + 128] + [q % 128 + 128, q / 128];
  }

  lemma LebBytes(n: nat)
    requires n <= MAX_FRAME
    ensures n < 128 ==> Leb(n) == [n]
    ensures 128 <= n < 16384 ==> Leb(n) == [n % 128 + 128, n / 128]
    ensures 16384 <= n ==> Leb(n) == [n % 128 + 128, n / 128 % 128 + 128, n / 16384]
  {
    if 128 <= n < 16384 { LebTwo(n); }
    if n >= 16384 { LebThree(n); }
  }

  /** No proper prefix of a packet is a frame: the reader waits for more. */
  lemma PacketsArePrefixFree(f: Frame, k: nat)
    requires Fits(f) && k < |Packet(f)|
    ensures Read(Packet(f)[..k]).result == Err(EndOfInput)
  {
    var size := |Body(f)|;
    var s := Packet(f)[..k];
    var short := |Leb(size)|;
    if k >= 4 {
      assert s[..4] == HEADER;
    }
    if 4 <= k < 4 + short {
      assert s[4..] == Leb(size)[..k - 4];
      CutLeb(size, k - 4, 0, 0);
    } else if k >= 4 {
      assert s[4..] == Leb(size) + Body(f)[..k - 4 - short];
      ReadLeb(size, Body(f)[..k - 4 - short], 0, 0);
    }
  }
}
