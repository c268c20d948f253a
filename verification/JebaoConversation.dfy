/**
 The write conversation with a JEBAO device (internal/jebao/control.go): passcode, login, read,
 write, read back, each one request and at most 24 frames of answers, against a peer that may send
 any bytes at all.
 */
module JebaoConversation {
  import opened Wrappers
  import opened Bytes
  import opened JebaoFrames
  import opened JebaoAttributes
  import opened JebaoPayloads

  const PATIENCE: nat := 24

  datatype Failure =
    | WriteFailed | Broken(read: ReadError) | NoAnswer | BadPasscode | LoginRejected | BadStatus
    | NoToken | Refused(refusal: PayloadError) | WrongAck | NotVerified | Undecoded(decode: DecodeError)

  /** The four bytes a write carries and its acknowledgement repeats. */
  type Token = t: seq<Byte> | |t| == 4 witness [0, 0, 0, 0]

  type Payload = (seq<Byte>, seq<Byte>) -> Result<seq<Byte>, PayloadError>
  type Verify = (seq<Byte>, seq<Byte>) -> bool

  // ---- one connection ----

  /** Bytes still to come from the peer, how the coming writes will fare, and what was sent so far. */
  datatype Link = Link(rest: seq<Byte>, writes: seq<bool>, sent: seq<Frame>)

  /** The first frame with the wanted command among the next `left` frames. */
  function Await(rest: seq<Byte>, want: Command, left: nat): (Result<seq<Byte>, Failure>, seq<Byte>)
    decreases left, |rest|
  {
    if left == 0 then (Err(NoAnswer), rest)
    else
      var o := Read(rest);
      if o.result.Err? then (Err(Broken(o.result.error)), o.rest)
      else if o.result.value.cmd == want then (Ok(o.result.value.payload), o.rest)
      else Await(o.rest, want, left - 1)
  }

  function Exchange(l: Link, cmd: Command, want: Command, p: seq<Byte>): (Result<seq<Byte>, Failure>, Link) {
    var sent := l.sent + [Frame(cmd, p)];
    if l.writes == [] || !l.writes[0] then (Err(WriteFailed), Link(l.rest, if l.writes == [] then [] else l.writes[1..], sent))
    else
      var (r, rest) := Await(l.rest, want, PATIENCE);
      (r, Link(rest, l.writes[1..], sent))
  }

  predicate GoodPasscode(pass: seq<Byte>) {
    2 < |pass| <= 66 && Word(pass[0], pass[1]) + 2 == |pass|
  }

  predicate GoodLogin(login: seq<Byte>) {
    |login| > 0 && login[0] == 0
  }

  predicate GoodStatus(status: seq<Byte>, size: nat) {
    |status| == size + 1 && (status[0] == 3 || status[0] == 4)
  }

  predicate GoodAck(ack: seq<Byte>, token: Token) {
    |ack| >= 4 && ack[..4] == token
  }

  function ReadStatus(l: Link, size: nat): (Result<seq<Byte>, Failure>, Link) {
    var (r, l1) := Exchange(l, 0x90, 0x91, [2]);
    if r.Err? then (r, l1)
    else if !GoodStatus(r.value, size) then (Err(BadStatus), l1)
    else (Ok(r.value[1..]), l1)
  }

  /** Passcode and login. */
  function Enter(l: Link): (Result<seq<Byte>, Failure>, Link) {
    var (pass, l1) := Exchange(l, 6, 7, []);
    if pass.Err? then (pass, l1)
    else if !GoodPasscode(pass.value) then (Err(BadPasscode), l1)
    else
      var (login, l2) := Exchange(l1, 8, 9, pass.value);
      if login.Err? then (login, l2) else if !GoodLogin(login.value) then (Err(LoginRejected), l2) else (Ok([]), l2)
  }

  /** The write and its read-back, once the payload is known. */
  function Commit(l: Link, m: Model, size: nat, verify: Verify, before: seq<Byte>, p: seq<Byte>, token: Token):
      (Result<Attributes, Failure>, Link)
  {
    var (ack, l1) := Exchange(l, 0x93, 0x94, p);
    if ack.Err? then (Err(ack.error), l1)
    else if !GoodAck(ack.value, token) then (Err(WrongAck), l1)
    else
      var (after, l2) := ReadStatus(l1, size);
      if after.Err? then (Err(after.error), l2)
      else if !verify(before, after.value) then (Err(NotVerified), l2)
      else
        var r := Decode(m, after.value);
        (if r.Err? then Err(Undecoded(r.error)) else Ok(r.value), l2)
  }

  /** The whole conversation; token is None when no random bytes were to be had. */
  function Converse(l: Link, m: Model, size: nat, payload: Payload, verify: Verify, token: Option<Token>):
      (Result<Attributes, Failure>, Link)
  {
    var (entered, l1) := Enter(l);
    if entered.Err? then (Err(entered.error), l1)
    else
      var (before, l2) := ReadStatus(l1, size);
      if before.Err? then (Err(before.error), l2)
      else if token.None? then (Err(NoToken), l2)
      else
        var p := payload(before.value, token.value);
        if p.Err? then (Err(Refused(p.error)), l2)
        else Commit(l2, m, size, verify, before.value, p.value, token.value)
  }

  class Connection {
    const reader: Reader
    var writes: seq<bool>
    var sent: seq<Frame>

    constructor (input: seq<Byte>, writes: seq<bool>)
      ensures fresh(reader) && State() == Link(input, writes, [])
    {
      reader := new Reader(input);
      this.writes, sent := writes, [];
    }

    ghost function State(): Link
      reads this, reader
    {
      Link(reader.rest, writes, sent)
    }

    method Send(cmd: Command, p: seq<Byte>) returns (ok: bool)
      modifies this
      ensures ok == (old(writes) != [] && old(writes)[0])
      ensures writes == (if old(writes) == [] then [] else old(writes)[1..])
      ensures sent == old(sent) + [Frame(cmd, p)]
    {
      sent := sent + [Frame(cmd, p)];
      if writes == [] { return false; }
      ok, writes := writes[0], writes[1..];
    }

    method Listen(want: Command, limit: nat) returns (r: Result<seq<Byte>, Failure>)
      modifies reader
      ensures (r, reader.rest) == Await(old(reader.rest), want, limit)
    {
      var i := 0;
      while i < limit
        invariant 0 <= i <= limit
        invariant Await(reader.rest, want, limit - i) == Await(old(reader.rest), want, limit)
      {
        var got := reader.ReadFrame();
        if got.Err? { return Err(Broken(got.error)); }
        if got.value.cmd == want { return Ok(got.value.payload); }
        i := i + 1;
      }
      return Err(NoAnswer);
    }

    method Ask(cmd: Command, want: Command, p: seq<Byte>) returns (r: Result<seq<Byte>, Failure>)
      modifies this, reader
      ensures (r, State()) == Exchange(old(State()), cmd, want, p)
    {
      var ok := Send(cmd, p);
      if !ok { return Err(WriteFailed); }
      r := Listen(want, PATIENCE);
    }

    method AskStatus(size: nat) returns (r: Result<seq<Byte>, Failure>)
      modifies this, reader
      ensures (r, State()) == ReadStatus(old(State()), size)
    {
      var b := Ask(0x90, 0x91, [2]);
      if b.Err? { return b; }
      if |b.value| != size + 1 || (b.value[0] != 3 && b.value[0] != 4) { return Err(BadStatus); }
      return Ok(b.value[1..]);
    }

    method WriteModel(m: Model, size: nat, payload: Payload, verify: Verify, token: Option<Token>)
      returns (r: Result<Attributes, Failure>)
      modifies this, reader
      ensures (r, State()) == Converse(old(State()), m, size, payload, verify, token)
    {
      var pass := Ask(6, 7, []);
      if pass.Err? { return Err(pass.error); }
      if |pass.value| < 2 || Word(pass.value[0], pass.value[1]) + 2 != |pass.value| || |pass.value| > 66 || |pass.value| == 2 {
        return Err(BadPasscode);
      }
      var login := Ask(8, 9, pass.value);
      if login.Err? { return Err(login.error); }
      if |login.value| == 0 || login.value[0] != 0 { return Err(LoginRejected); }
      var before := AskStatus(size);
      if before.Err? { return Err(before.error); }
      if token.None? { return Err(NoToken); }
      var p := payload(before.value, token.value);
      if p.Err? { return Err(Refused(p.error)); }
      var ack := Ask(0x93, 0x94, p.value);
      if ack.Err? { return Err(ack.error); }
      if |ack.value| < 4 || ack.value[..4] != token.value { return Err(WrongAck); }
      var after := AskStatus(size);
      if after.Err? { return Err(after.error); }
      if !verify(before.value, after.value) { return Err(NotVerified); }
      var attrs := DecodeStatus(m, after.value);
      if attrs.Err? { return Err(Undecoded(attrs.error)); }
      return Ok(attrs.value);
    }
  }

  // ---- one exchange: the first wanted frame among the next 24, and no more is read ----

  /** fs are the next frames of the peer, p the payload of the last of them, the first one wanted. */
  predicate Heard(rest: seq<Byte>, want: Command, limit: nat, fs: seq<Frame>, p: seq<Byte>, after: seq<Byte>) {
    && 0 < |fs| <= limit && ReadMany(rest, |fs|) == Some((fs, after))
    && fs[|fs| - 1] == Frame(want, p)
    && forall i :: 0 <= i < |fs| - 1 ==> fs[i].cmd != want
  }

  lemma {:induction false} AwaitHears(rest: seq<Byte>, want: Command, limit: nat) returns (fs: seq<Frame>)
    requires Await(rest, want, limit).0.Ok?
    ensures Heard(rest, want, limit, fs, Await(rest, want, limit).0.value, Await(rest, want, limit).1)
    decreases limit
  {
    var o := Read(rest);
    var f := o.result.value;
    if f.cmd == want {
      fs := [f];
      assert ReadMany(o.rest, 0) == Some(([], o.rest));
      assert [f] + [] == fs;
    } else {
      var more := AwaitHears(o.rest, want, limit - 1);
      fs := [f] + more;
    }
  }

  lemma {:induction false} HeardIsAwaited(rest: seq<Byte>, want: Command, limit: nat, fs: seq<Frame>, p: seq<Byte>, after: seq<Byte>)
    requires Heard(rest, want, limit, fs, p, after)
    ensures Await(rest, want, limit) == (Ok(p), after)
    decreases limit
  {
    var o := Read(rest);
    var more := ReadMany(o.rest, |fs| - 1);
    assert fs == [o.result.value] + more.value.0;
    assert fs[1..] == more.value.0;
    if |fs| > 1 {
      assert fs[0].cmd != want && fs[1..][|fs| - 2] == fs[|fs| - 1];
      HeardIsAwaited(o.rest, want, limit - 1, fs[1..], p, after);
    } else {
      assert ReadMany(o.rest, 0) == Some(([], o.rest));
      assert fs[0] == Frame(want, p);
    }
  }

  /** fs are the next frames of the peer, and none of them is wanted. */
  predicate Unheard(rest: seq<Byte>, want: Command, fs: seq<Frame>, after: seq<Byte>) {
    ReadMany(rest, |fs|) == Some((fs, after)) && forall i :: 0 <= i < |fs| ==> fs[i].cmd != want
  }

  /**
   A failing exchange reads no more either: it gives up after exactly `limit` unwanted frames, or
   breaks off at the first frame it cannot read, after fewer than that.
   */
  lemma {:induction false} AwaitGivesUp(rest: seq<Byte>, want: Command, limit: nat)
    returns (fs: seq<Frame>, after: seq<Byte>)
    requires Await(rest, want, limit).0.Err?
    ensures |fs| <= limit && Unheard(rest, want, fs, after)
    ensures |fs| == limit ==> Await(rest, want, limit) == (Err(NoAnswer), after)
    ensures |fs| < limit ==> Read(after).result.Err?
    ensures |fs| < limit ==> Await(rest, want, limit) == (Err(Broken(Read(after).result.error)), Read(after).rest)
    decreases limit
  {
    var o := Read(rest);
    if limit == 0 || o.result.Err? {
      fs, after := [], rest;
    } else {
      var more;
      more, after := AwaitGivesUp(o.rest, want, limit - 1);
      fs := [o.result.value] + more;
    }
  }

  /** In numbers: an exchange takes the first wanted frame of the next 24, or has read 24 unwanted ones, or met an unreadable one. */
  lemma ExchangeReadsAtMost24(l: Link, cmd: Command, want: Command, p: seq<Byte>) returns (fs: seq<Frame>, after: seq<Byte>)
    requires l.writes != [] && l.writes[0]
    ensures var (r, l1) := Exchange(l, cmd, want, p);
      && |fs| <= 24 && ReadMany(l.rest, |fs|) == Some((fs, after)) && l1.sent == l.sent + [Frame(cmd, p)]
      && (r.Ok? ==> fs != [] && fs[|fs| - 1] == Frame(want, r.value) && l1.rest == after)
      && (r == Err(NoAnswer) <==> r.Err? && |fs| == 24)
      && (r.Err? && |fs| < 24 ==> Read(after).result.Err? && r == Err(Broken(Read(after).result.error)))
      && forall i :: 0 <= i < |fs| && (r.Err? || i < |fs| - 1) ==> fs[i].cmd != want
  {
    if Exchange(l, cmd, want, p).0.Ok? {
      fs := AwaitHears(l.rest, want, 24);
      after := Exchange(l, cmd, want, p).1.rest;
    } else {
      fs, after := AwaitGivesUp(l.rest, want, 24);
    }
  }

  // ---- what is sent ----

  const SCRIPT: seq<Command> := [6, 8, 0x90, 0x93, 0x90]

  function Commands(fs: seq<Frame>): seq<Command> {
    seq(|fs|, i requires 0 <= i < |fs| => fs[i].cmd)
  }

  /** The status answered on this link after passcode and login, if it came. */
  function StatusHeard(l: Link, size: nat): Option<seq<Byte>> {
    var (entered, l1) := Enter(l);
    if entered.Err? then None
    else
      var before := ReadStatus(l1, size).0;
      if before.Err? then None else Some(before.value)
  }

  lemma EnterSends(l: Link)
    ensures var (r, l1) := Enter(l);
      && l.sent <= l1.sent
      && Commands(l1.sent[|l.sent|..]) <= [6, 8]
      && (r.Ok? ==> Commands(l1.sent[|l.sent|..]) == [6, 8])
  {
    var (r, l1) := Enter(l);
    var pass := Exchange(l, 6, 7, []).0;
    var one := [Frame(6, [])];
    if pass.Err? || !GoodPasscode(pass.value) {
      assert l1.sent[|l.sent|..] == one;
    } else {
      assert l1.sent[|l.sent|..] == one + [Frame(8, pass.value)];
    }
  }

  lemma CommitSends(l: Link, m: Model, size: nat, verify: Verify, before: seq<Byte>, p: seq<Byte>, token: Token)
    ensures var (r, l1) := Commit(l, m, size, verify, before, p, token);
      && l.sent + [Frame(0x93, p)] <= l1.sent
      && Commands(l1.sent[|l.sent|..]) <= [0x93, 0x90]
      && (r.Ok? ==> Commands(l1.sent[|l.sent|..]) == [0x93, 0x90])
  {
    var (r, l1) := Commit(l, m, size, verify, before, p, token);
    var ack := Exchange(l, 0x93, 0x94, p).0;
    if ack.Err? || !GoodAck(ack.value, token) {
      assert l1.sent[|l.sent|..] == [Frame(0x93, p)];
    } else {
      assert l1.sent[|l.sent|..] == [Frame(0x93, p), Frame(0x90, [2])];
    }
  }

  /**
   Against every peer: the commands are a prefix of the script; the one write, if it is attempted,
   carries exactly what the payload guards made of the status read on this very connection; and a run
   that succeeds sent all five.
   */
  lemma ScriptIsFollowed(l: Link, m: Model, size: nat, payload: Payload, verify: Verify, token: Option<Token>)
    ensures var (r, l1) := Converse(l, m, size, payload, verify, token);
      && l.sent <= l1.sent
      && var now := l1.sent[|l.sent|..];
      && Commands(now) <= SCRIPT
      && (|now| > 3 ==>
            token.Some? && StatusHeard(l, size).Some?
            && payload(StatusHeard(l, size).value, token.value) == Ok(now[3].payload))
      && (r.Ok? ==> Commands(now) == SCRIPT)
  {
    EnterSends(l);
    var (entered, l1) := Enter(l);
    if entered.Ok? {
      var (before, l2) := ReadStatus(l1, size);
      StatusSends(l, l1, size);
      if before.Ok? && token.Some? && payload(before.value, token.value).Ok? {
        var p := payload(before.value, token.value).value;
        CommitSends(l2, m, size, verify, before.value, p, token.value);
        ScriptEnds(l.sent, l2.sent, Commit(l2, m, size, verify, before.value, p, token.value).1.sent, p);
      }
    }
  }

  lemma StatusSends(l: Link, l1: Link, size: nat)
    requires l.sent <= l1.sent && Commands(l1.sent[|l.sent|..]) == [6, 8]
    ensures var l2 := ReadStatus(l1, size).1; l.sent <= l2.sent && Commands(l2.sent[|l.sent|..]) == [6, 8, 0x90]
  {
    var l2 := ReadStatus(l1, size).1;
    assert l2.sent[|l.sent|..] == l1.sent[|l.sent|..] + [Frame(0x90, [2])];
  }

  /** Three frames, and then the write and what follows it. */
  lemma ScriptEnds(start: seq<Frame>, middle: seq<Frame>, end: seq<Frame>, p: seq<Byte>)
    requires start <= middle && Commands(middle[|start|..]) == [6, 8, 0x90]
    requires middle + [Frame(0x93, p)] <= end && Commands(end[|middle|..]) <= [0x93, 0x90]
    ensures var now := end[|start|..];
      && start <= end && |now| > 3 && now[3] == Frame(0x93, p) && Commands(now) <= SCRIPT
      && (Commands(end[|middle|..]) == [0x93, 0x90] ==> Commands(now) == SCRIPT)
  {
    var now, head, tail := end[|start|..], middle[|start|..], end[|middle|..];
    assert now == head + tail && |head| == 3;
    assert Commands(now) == Commands(head) + Commands(tail);
    assert tail[0] == Frame(0x93, p);
  }

  // ---- when it succeeds ----

  /** What the peer answered in a successful run. */
  datatype Transcript = Transcript(pass: seq<Byte>, login: seq<Byte>, status: seq<Byte>, ack: seq<Byte>, readBack: seq<Byte>)

  /** The peer's bytes hold, each within 24 frames of the one before, acceptable answers to all five requests. */
  predicate Answers(rest: seq<Byte>, t: Transcript, size: nat, payload: Payload, verify: Verify, token: Token) {
    var a := Await(rest, 7, PATIENCE);
    var b := Await(a.1, 9, PATIENCE);
    var c := Await(b.1, 0x91, PATIENCE);
    var d := Await(c.1, 0x94, PATIENCE);
    var e := Await(d.1, 0x91, PATIENCE);
    && a.0 == Ok(t.pass) && GoodPasscode(t.pass) && b.0 == Ok(t.login) && GoodLogin(t.login)
    && c.0 == Ok(t.status) && GoodStatus(t.status, size) && payload(t.status[1..], token).Ok?
    && d.0 == Ok(t.ack) && GoodAck(t.ack, token)
    && e.0 == Ok(t.readBack) && GoodStatus(t.readBack, size) && verify(t.status[1..], t.readBack[1..])
  }

  predicate AllWritesWork(writes: seq<bool>, n: nat) {
    |writes| >= n && forall i :: 0 <= i < n ==> writes[i]
  }

  function TranscriptOf(rest: seq<Byte>): Option<Transcript> {
    var a := Await(rest, 7, PATIENCE);
    var b := Await(a.1, 9, PATIENCE);
    var c := Await(b.1, 0x91, PATIENCE);
    var d := Await(c.1, 0x94, PATIENCE);
    var e := Await(d.1, 0x91, PATIENCE);
    if a.0.Ok? && b.0.Ok? && c.0.Ok? && d.0.Ok? && e.0.Ok?
    then Some(Transcript(a.0.value, b.0.value, c.0.value, d.0.value, e.0.value)) else None
  }

  /**
   Success means exactly this: five writes went out, the peer answered all five acceptably, the
   acknowledgement carries the token, the read-back passes the check against the status before the
   write, and it is the read-back that is decoded.
   */
  lemma SuccessMeansVerified(l: Link, m: Model, size: nat, payload: Payload, verify: Verify, token: Token, attrs: Attributes)
    ensures Converse(l, m, size, payload, verify, Some(token)).0 == Ok(attrs) <==>
      AllWritesWork(l.writes, 5)
      && exists t :: Answers(l.rest, t, size, payload, verify, token) && Decode(m, t.readBack[1..]) == Ok(attrs)
  {
    if Converse(l, m, size, payload, verify, Some(token)).0 == Ok(attrs) {
      SuccessHasTranscript(l, m, size, payload, verify, token, attrs);
    }
    forall t | AllWritesWork(l.writes, 5) && Answers(l.rest, t, size, payload, verify, token) && Decode(m, t.readBack[1..]) == Ok(attrs)
      ensures Converse(l, m, size, payload, verify, Some(token)).0 == Ok(attrs)
    {
      TranscriptSucceeds(l, m, size, payload, verify, token, attrs, t);
    }
  }

  lemma ExchangeOk(l: Link, cmd: Command, want: Command, p: seq<Byte>)
    requires Exchange(l, cmd, want, p).0.Ok?
    ensures l.writes != [] && l.writes[0]
    ensures var (r, l1) := Exchange(l, cmd, want, p);
      (r, l1.rest) == Await(l.rest, want, PATIENCE) && l1.writes == l.writes[1..]
  {
  }

  lemma EnterOk(l: Link)
    requires Enter(l).0.Ok?
    ensures |l.writes| >= 2 && l.writes[0] && l.writes[1]
    ensures var a := Await(l.rest, 7, PATIENCE);
      var b := Await(a.1, 9, PATIENCE);
      && a.0.Ok? && GoodPasscode(a.0.value) && b.0.Ok? && GoodLogin(b.0.value)
      && Enter(l).1.rest == b.1 && Enter(l).1.writes == l.writes[2..]
  {
    var (pass, l1) := Exchange(l, 6, 7, []);
    ExchangeOk(l, 6, 7, []);
    ExchangeOk(l1, 8, 9, pass.value);
  }

  lemma StatusOk(l: Link, size: nat)
    requires ReadStatus(l, size).0.Ok?
    ensures |l.writes| >= 1 && l.writes[0]
    ensures var c := Await(l.rest, 0x91, PATIENCE);
      && c.0.Ok? && GoodStatus(c.0.value, size) && ReadStatus(l, size).0.value == c.0.value[1..]
      && ReadStatus(l, size).1.rest == c.1 && ReadStatus(l, size).1.writes == l.writes[1..]
  {
    ExchangeOk(l, 0x90, 0x91, [2]);
  }

  lemma CommitOk(l: Link, m: Model, size: nat, verify: Verify, before: seq<Byte>, p: seq<Byte>, token: Token)
    requires Commit(l, m, size, verify, before, p, token).0.Ok?
    ensures |l.writes| >= 2 && l.writes[0] && l.writes[1]
    ensures var d := Await(l.rest, 0x94, PATIENCE);
      var e := Await(d.1, 0x91, PATIENCE);
      && d.0.Ok? && GoodAck(d.0.value, token) && e.0.Ok? && GoodStatus(e.0.value, size)
      && verify(before, e.0.value[1..])
      && Decode(m, e.0.value[1..]) == Ok(Commit(l, m, size, verify, before, p, token).0.value)
  {
    ExchangeOk(l, 0x93, 0x94, p);
    StatusOk(Exchange(l, 0x93, 0x94, p).1, size);
  }

  // ---- which answers pass, said on their bytes ----

  /** An answered passcode goes on to the login exactly when it is 3 to 66 bytes, the first two counting the rest. */
  lemma PasscodeIsChecked(l: Link)
    requires Exchange(l, 6, 7, []).0.Ok?
    ensures var pass := Exchange(l, 6, 7, []).0.value;
      Enter(l).0 == Err(BadPasscode) <==> !(3 <= |pass| <= 66 && |pass| - 2 == 256 * (pass[0] as int) + pass[1])
    ensures var (pass, l1) := Exchange(l, 6, 7, []);
      Enter(l).0 != Err(BadPasscode) ==> Enter(l).1.sent == l.sent + [Frame(6, []), Frame(8, pass.value)]
  {
    var (pass, l1) := Exchange(l, 6, 7, []);
    var login := Exchange(l1, 8, 9, pass.value).0;
    assert login.Err? ==> login.error == WriteFailed || login.error == NoAnswer || login.error.Broken? by {
      if login.Err? { ExchangeErrors(l1, 8, 9, pass.value); }
    }
    assert l.sent + [Frame(6, []), Frame(8, pass.value)] == l.sent + [Frame(6, [])] + [Frame(8, pass.value)];
  }

  /** The exchange itself fails in three ways only. */
  lemma {:induction false} AwaitErrors(rest: seq<Byte>, want: Command, left: nat)
    requires Await(rest, want, left).0.Err?
    ensures Await(rest, want, left).0.error == NoAnswer || Await(rest, want, left).0.error.Broken?
    decreases left
  {
    if left > 0 && Read(rest).result.Ok? { AwaitErrors(Read(rest).rest, want, left - 1); }
  }

  lemma ExchangeErrors(l: Link, cmd: Command, want: Command, p: seq<Byte>)
    requires Exchange(l, cmd, want, p).0.Err?
    ensures var e := Exchange(l, cmd, want, p).0.error; e == WriteFailed || e == NoAnswer || e.Broken?
  {
    if l.writes != [] && l.writes[0] { AwaitErrors(l.rest, want, PATIENCE); }
  }

  /** An answered login passes exactly when its first byte is there and zero. */
  lemma LoginIsChecked(l: Link)
    requires Exchange(l, 6, 7, []).0.Ok? && Enter(l).0 != Err(BadPasscode)
    requires var (pass, l1) := Exchange(l, 6, 7, []); Exchange(l1, 8, 9, pass.value).0.Ok?
    ensures var (pass, l1) := Exchange(l, 6, 7, []);
      var login := Exchange(l1, 8, 9, pass.value).0.value;
      if |login| >= 1 && login[0] == 0 then Enter(l).0.Ok? else Enter(l).0 == Err(LoginRejected)
  {
  }

  /** An answered status passes exactly when it has the size and starts with 3 or 4; the rest is the status. */
  lemma StatusIsChecked(l: Link, size: nat)
    requires Exchange(l, 0x90, 0x91, [2]).0.Ok?
    ensures var b := Exchange(l, 0x90, 0x91, [2]).0.value;
      if |b| - 1 == size && 3 <= b[0] <= 4 then ReadStatus(l, size).0 == Ok(b[1..]) else ReadStatus(l, size).0 == Err(BadStatus)
  {
  }

  /**
   An answered write is taken for rejected exactly when its acknowledgement does not echo the token;
   then no read-back is asked for.
   */
  lemma AckIsChecked(l: Link, m: Model, size: nat, payload: Payload, verify: Verify, token: Token)
    requires var (entered, l1) := Enter(l);
      var (before, l2) := ReadStatus(l1, size);
      && entered.Ok? && before.Ok? && payload(before.value, token).Ok?
      && Exchange(l2, 0x93, 0x94, payload(before.value, token).value).0.Ok?
    ensures var (before, l2) := ReadStatus(Enter(l).1, size);
      var (ack, l3) := Exchange(l2, 0x93, 0x94, payload(before.value, token).value);
      var r := Converse(l, m, size, payload, verify, Some(token));
      && (r.0 == Err(WrongAck) <==> !(|ack.value| >= 4 && ack.value[0] == token[0] && ack.value[1] == token[1]
                                      && ack.value[2] == token[2] && ack.value[3] == token[3]))
      && (r.0 == Err(WrongAck) ==> r.1 == l3)
  {
    var (before, l2) := ReadStatus(Enter(l).1, size);
    var (ack, l3) := Exchange(l2, 0x93, 0x94, payload(before.value, token).value);
    FirstFour(ack.value, token);
    if ReadStatus(l3, size).0.Err? { StatusErrors(l3, size); }
  }

  lemma FirstFour(ack: seq<Byte>, token: Token)
    ensures |ack| >= 4 && ack[..4] == token <==>
      |ack| >= 4 && ack[0] == token[0] && ack[1] == token[1] && ack[2] == token[2] && ack[3] == token[3]
  {
  }

  lemma StatusErrors(l: Link, size: nat)
    requires ReadStatus(l, size).0.Err?
    ensures var e := ReadStatus(l, size).0.error; e == BadStatus || e == WriteFailed || e == NoAnswer || e.Broken?
  {
    if Exchange(l, 0x90, 0x91, [2]).0.Err? { ExchangeErrors(l, 0x90, 0x91, [2]); }
  }

  lemma WritesAdd(w: seq<bool>, w1: seq<bool>, w2: seq<bool>)
    requires |w| >= 2 && w[0] && w[1] && w1 == w[2..]
    requires |w1| >= 1 && w1[0] && w2 == w1[1..]
    requires |w2| >= 2 && w2[0] && w2[1]
    ensures AllWritesWork(w, 5)
  {
    assert w[2] == w1[0] && w[3] == w1[1] == w2[0] && w[4] == w1[2] == w2[1];
  }

  /** The stages of a successful run. */
  lemma SuccessStages(l: Link, m: Model, size: nat, payload: Payload, verify: Verify, token: Token)
    returns (l1: Link, before: seq<Byte>, l2: Link)
    requires Converse(l, m, size, payload, verify, Some(token)).0.Ok?
    ensures Enter(l).0.Ok? && Enter(l).1 == l1 && ReadStatus(l1, size) == (Ok(before), l2)
    ensures payload(before, token).Ok?
    ensures Commit(l2, m, size, verify, before, payload(before, token).value, token).0
      == Converse(l, m, size, payload, verify, Some(token)).0
  {
    l1 := Enter(l).1;
    before := ReadStatus(l1, size).0.value;
    l2 := ReadStatus(l1, size).1;
  }

  lemma SuccessHasTranscript(l: Link, m: Model, size: nat, payload: Payload, verify: Verify, token: Token, attrs: Attributes)
    requires Converse(l, m, size, payload, verify, Some(token)).0 == Ok(attrs)
    ensures AllWritesWork(l.writes, 5) && TranscriptOf(l.rest).Some?
    ensures var t := TranscriptOf(l.rest).value;
      Answers(l.rest, t, size, payload, verify, token) && Decode(m, t.readBack[1..]) == Ok(attrs)
  {
    var l1, before, l2 := SuccessStages(l, m, size, payload, verify, token);
    var p := payload(before, token).value;
    EnterOk(l);
    StatusOk(l1, size);
    CommitOk(l2, m, size, verify, before, p, token);
    WritesAdd(l.writes, l1.writes, l2.writes);
    GatherAnswers(l.rest, l1.rest, l2.rest, m, size, payload, verify, token, before, attrs);
  }

  lemma GatherAnswers(rest: seq<Byte>, rest1: seq<Byte>, rest2: seq<Byte>, m: Model, size: nat, payload: Payload,
                      verify: Verify, token: Token, before: seq<Byte>, attrs: Attributes)
    requires payload(before, token).Ok?
    requires var a := Await(rest, 7, PATIENCE);
      var b := Await(a.1, 9, PATIENCE);
      a.0.Ok? && GoodPasscode(a.0.value) && b.0.Ok? && GoodLogin(b.0.value) && b.1 == rest1
    requires var c := Await(rest1, 0x91, PATIENCE);
      c.0.Ok? && GoodStatus(c.0.value, size) && before == c.0.value[1..] && c.1 == rest2
    requires var d := Await(rest2, 0x94, PATIENCE);
      var e := Await(d.1, 0x91, PATIENCE);
      d.0.Ok? && GoodAck(d.0.value, token) && e.0.Ok? && GoodStatus(e.0.value, size)
      && verify(before, e.0.value[1..]) && Decode(m, e.0.value[1..]) == Ok(attrs)
    ensures TranscriptOf(rest).Some?
    ensures var t := TranscriptOf(rest).value;
      Answers(rest, t, size, payload, verify, token) && Decode(m, t.readBack[1..]) == Ok(attrs)
  {
  }

  lemma ExchangeAnswered(l: Link, cmd: Command, want: Command, p: seq<Byte>)
    requires l.writes != [] && l.writes[0]
    ensures var (r, l1) := Exchange(l, cmd, want, p);
      (r, l1.rest) == Await(l.rest, want, PATIENCE) && l1.writes == l.writes[1..]
  {
  }

  lemma EnterAnswered(l: Link, t: Transcript)
    requires AllWritesWork(l.writes, 2)
    requires var a := Await(l.rest, 7, PATIENCE);
      var b := Await(a.1, 9, PATIENCE);
      a.0 == Ok(t.pass) && GoodPasscode(t.pass) && b.0 == Ok(t.login) && GoodLogin(t.login)
    ensures Enter(l).0.Ok? && Enter(l).1.writes == l.writes[2..]
    ensures Enter(l).1.rest == Await(Await(l.rest, 7, PATIENCE).1, 9, PATIENCE).1
  {
    var l1 := Exchange(l, 6, 7, []).1;
    ExchangeAnswered(l, 6, 7, []);
    ExchangeAnswered(l1, 8, 9, t.pass);
    assert l.writes[1..][1..] == l.writes[2..];
  }

  lemma StatusAnswered(l: Link, size: nat, b: seq<Byte>)
    requires AllWritesWork(l.writes, 1) && Await(l.rest, 0x91, PATIENCE).0 == Ok(b) && GoodStatus(b, size)
    ensures var (r, l1) := ReadStatus(l, size);
      r == Ok(b[1..]) && l1.rest == Await(l.rest, 0x91, PATIENCE).1 && l1.writes == l.writes[1..]
  {
    ExchangeAnswered(l, 0x90, 0x91, [2]);
  }

  lemma CommitAnswered(l: Link, m: Model, size: nat, verify: Verify, before: seq<Byte>, p: seq<Byte>, token: Token,
                       t: Transcript, attrs: Attributes)
    requires AllWritesWork(l.writes, 2)
    requires var d := Await(l.rest, 0x94, PATIENCE);
      d.0 == Ok(t.ack) && GoodAck(t.ack, token) && Await(d.1, 0x91, PATIENCE).0 == Ok(t.readBack)
    requires GoodStatus(t.readBack, size) && verify(before, t.readBack[1..]) && Decode(m, t.readBack[1..]) == Ok(attrs)
    ensures Commit(l, m, size, verify, before, p, token).0 == Ok(attrs)
  {
    ExchangeAnswered(l, 0x93, 0x94, p);
    StatusAnswered(Exchange(l, 0x93, 0x94, p).1, size, t.readBack);
  }

  lemma TranscriptSucceeds(l: Link, m: Model, size: nat, payload: Payload, verify: Verify, token: Token, attrs: Attributes,
                           t: Transcript)
    requires AllWritesWork(l.writes, 5)
    requires Answers(l.rest, t, size, payload, verify, token) && Decode(m, t.readBack[1..]) == Ok(attrs)
    ensures Converse(l, m, size, payload, verify, Some(token)).0 == Ok(attrs)
  {
    EnterAnswered(l, t);
    var l1 := Enter(l).1;
    StatusAnswered(l1, size, t.status);
    var l2 := ReadStatus(l1, size).1;
    CommitAnswered(l2, m, size, verify, t.status[1..], payload(t.status[1..], token).value, token, t, attrs);
  }

  /** The two statuses of a successful run. */
  lemma SuccessPair(l: Link, m: Model, size: nat, payload: Payload, verify: Verify, token: Token)
    returns (before: seq<Byte>, after: seq<Byte>)
    requires Converse(l, m, size, payload, verify, Some(token)).0.Ok?
    ensures StatusHeard(l, size) == Some(before) && |before| == |after| == size
    ensures payload(before, token).Ok? && verify(before, after)
    ensures Decode(m, after) == Ok(Converse(l, m, size, payload, verify, Some(token)).0.value)
  {
    var l1 := Enter(l).1;
    var (status, l2) := ReadStatus(l1, size);
    before := status.value;
    var l3 := Exchange(l2, 0x93, 0x94, payload(before, token).value).1;
    after := ReadStatus(l3, size).0.value;
  }

  /** What the five answers of a successful run looked like, byte by byte. */
  lemma SuccessOnBytes(l: Link, m: Model, size: nat, payload: Payload, verify: Verify, token: Token)
    requires Converse(l, m, size, payload, verify, Some(token)).0.Ok?
    ensures TranscriptOf(l.rest).Some?
    ensures var t := TranscriptOf(l.rest).value;
      && 3 <= |t.pass| <= 66 && |t.pass| - 2 == 256 * (t.pass[0] as int) + t.pass[1]
      && |t.login| >= 1 && t.login[0] == 0
      && |t.status| - 1 == size && 3 <= t.status[0] <= 4
      && |t.ack| >= 4 && t.ack[0] == token[0] && t.ack[1] == token[1] && t.ack[2] == token[2] && t.ack[3] == token[3]
      && |t.readBack| - 1 == size && 3 <= t.readBack[0] <= 4
      && verify(t.status[1..], t.readBack[1..])
      && Decode(m, t.readBack[1..]) == Ok(Converse(l, m, size, payload, verify, Some(token)).0.value)
  {
    SuccessHasTranscript(l, m, size, payload, verify, token, Converse(l, m, size, payload, verify, Some(token)).0.value);
    FirstFour(TranscriptOf(l.rest).value.ack, token);
  }
}
