/** Powers of two, single bits, and big-endian numbers, as Go's shifts and masks on uint64 see them. */
module JebaoBits {
  import opened Bytes

  function Pow2(n: nat): (p: nat)
    ensures p >= 1
  {
    if n == 0 then 1 else 2 * Pow2(n - 1)
  }

  /** The bits of v from bit k on, and the low n bits of v. */
  function Shr(v: nat, k: nat): nat {
    if k == 0 then v else Shr(v / 2, k - 1)
  }

  function Low(v: nat, n: nat): nat {
    if n == 0 then 0 else v % 2 + 2 * Low(v / 2, n - 1)
  }

  predicate Bit(v: nat, k: nat) {
    Shr(v, k) % 2 == 1
  }

  /** v with bit k replaced. */
  function SetBit(v: nat, k: nat, on: bool): nat {
    if k == 0 then v - v % 2 + (if on then 1 else 0) else v % 2 + 2 * SetBit(v / 2, k - 1, on)
  }

  function BigEndian(s: seq<Byte>): nat {
    if s == [] then 0 else BigEndian(s[..|s| - 1]) * 256 + s[|s| - 1]
  }

  // ---- shifts and masks are division and remainder by powers of two ----

  lemma DivTwice(v: nat, p: nat)
    requires p >= 1
    ensures v / 2 / p == v / (2 * p)
    ensures v % (2 * p) == v % 2 + 2 * (v / 2 % p)
  {
    var h, q, r := v / 2, v / 2 / p, v / 2 % p;
    assert h == q * p + r;
    assert v == q * (2 * p) + (2 * r + v % 2);
    Euclid(v, 2 * p, q, 2 * r + v % 2);
  }

  lemma Euclid(v: nat, d: nat, q: nat, r: nat)
    requires d >= 1 && r < d && v == q * d + r
    ensures v / d == q && v % d == r
  {
    var a := v / d - q;
    assert a * d == r - v % d by {
      assert v == v / d * d + v % d;
    }
    assert a >= 1 ==> a * d >= d;
    assert a <= -1 ==> a * d <= 0 - d;
  }

  lemma {:induction false} ShiftIsDivision(v: nat, k: nat)
    ensures Shr(v, k) == v / Pow2(k)
  {
    if k > 0 {
      ShiftIsDivision(v / 2, k - 1);
      DivTwice(v, Pow2(k - 1));
    }
  }

  lemma {:induction false} MaskIsRemainder(v: nat, n: nat)
    ensures Low(v, n) == v % Pow2(n)
  {
    if n > 0 {
      MaskIsRemainder(v / 2, n - 1);
      DivTwice(v, Pow2(n - 1));
    }
  }

  // ---- which bits a field depends on ----

  lemma {:induction false} ShiftTwice(v: nat, j: nat, k: nat)
    ensures Shr(Shr(v, j), k) == Shr(v, j + k)
  {
    if j > 0 {
      ShiftTwice(v / 2, j - 1, k);
    }
  }

  /** Two numbers with the same bits from k to k + n - 1 have the same field there. */
  lemma {:induction false} FieldDependsOnItsBits(v: nat, w: nat, k: nat, n: nat)
    requires forall j :: k <= j < k + n ==> Bit(v, j) == Bit(w, j)
    ensures Low(Shr(v, k), n) == Low(Shr(w, k), n)
    decreases n
  {
    if n > 0 {
      assert Bit(v, k) == Bit(w, k);
      ShiftTwice(v, k, 1);
      ShiftTwice(w, k, 1);
      assert Shr(v, k) / 2 == Shr(v, k + 1) && Shr(w, k) / 2 == Shr(w, k + 1);
      FieldDependsOnItsBits(v, w, k + 1, n - 1);
    }
  }

  lemma TwiceAs(p: nat, x: nat)
    ensures 2 * p * x == 2 * (p * x)
  {
  }

  lemma HalfOfSum(x: nat, b: nat)
    ensures (2 * x + b) / 2 == x + b / 2
  {
  }

  lemma ShrStep(v: nat, j: nat)
    requires j > 0
    ensures Shr(v, j) == Shr(v / 2, j - 1)
  {
  }

  /** Low bits pushed out by a shift do not disturb the high part. */
  lemma {:induction false} ShiftOfSum(a: nat, b: nat, m: nat, j: nat)
    requires j <= m
    ensures Shr(Pow2(m) * a + b, j) == Pow2(m - j) * a + Shr(b, j)
    decreases j
  {
    if j > 0 {
      var p := Pow2(m - 1);
      TwiceAs(p, a);
      HalfOfSum(p * a, b);
      ShrStep(Pow2(m) * a + b, j);
      ShrStep(b, j);
      assert (Pow2(m) * a + b) / 2 == p * a + b / 2;
      ShiftOfSum(a, b / 2, m - 1, j - 1);
    }
  }

  lemma {:induction false} ShiftOfByte(b: nat, k: nat)
    requires b < Pow2(k)
    ensures Shr(b, k) == 0
  {
    if k > 0 {
      ShiftOfByte(b / 2, k - 1);
    }
  }

  lemma ByteWeight()
    ensures Pow2(8) == 256
  {
    assert Pow2(2) == 4 && Pow2(4) == 16 && Pow2(6) == 64;
  }

  lemma EvenPlus(x: nat, y: nat)
    ensures (2 * x + y) % 2 == y % 2
  {
  }

  lemma LowByteBit(high: nat, last: Byte, j: nat)
    requires j < 8
    ensures Bit(high * 256 + last, j) == Bit(last, j)
  {
    ByteWeight();
    ShiftOfSum(high, last, 8, j);
    TwiceAs(Pow2(7 - j), high);
    EvenPlus(Pow2(7 - j) * high, Shr(last, j));
  }

  lemma HighByteBit(high: nat, last: Byte, j: nat)
    requires j >= 8
    ensures Bit(high * 256 + last, j) == Bit(high, j - 8)
  {
    ByteWeight();
    ShiftOfSum(high, last, 8, 8);
    ShiftOfByte(last, 8);
    ShiftTwice(high * 256 + last, 8, j - 8);
  }

  /** Bit j of a big-endian number is a bit of one of its bytes. */
  lemma {:induction false} BigEndianBit(s: seq<Byte>, j: nat)
    requires j < 8 * |s|
    ensures Bit(BigEndian(s), j) == Bit(s[|s| - 1 - j / 8], j % 8)
    decreases |s|
  {
    var front, last := s[..|s| - 1], s[|s| - 1];
    if j < 8 {
      LowByteBit(BigEndian(front), last, j);
    } else {
      HighByteBit(BigEndian(front), last, j);
      BigEndianBit(front, j - 8);
    }
  }

  lemma BitStep(v: nat, j: nat)
    requires j > 0
    ensures Bit(v, j) == Bit(v / 2, j - 1)
  {
  }

  lemma LastBit(v: nat)
    ensures Bit(v, 0) <==> v % 2 == 1
  {
  }

  /** Replacing bit 0 leaves the half alone, replacing a higher one leaves the last bit alone. */
  lemma SetBitParts(v: nat, k: nat, on: bool)
    ensures k == 0 ==> SetBit(v, k, on) / 2 == v / 2 && SetBit(v, k, on) % 2 == if on then 1 else 0
    ensures k > 0 ==> SetBit(v, k, on) / 2 == SetBit(v / 2, k - 1, on) && SetBit(v, k, on) % 2 == v % 2
  {
  }

  lemma {:induction false} SetBitReplacesOneBit(v: nat, k: nat, on: bool, j: nat)
    ensures Bit(SetBit(v, k, on), j) == if j == k then on else Bit(v, j)
    decreases k
  {
    var w := SetBit(v, k, on);
    SetBitParts(v, k, on);
    if j == 0 {
      LastBit(w);
      LastBit(v);
    } else {
      BitStep(w, j);
      BitStep(v, j);
      if k > 0 { SetBitReplacesOneBit(v / 2, k - 1, on, j - 1); }
    }
  }

  /** Setting or clearing bit k adds or subtracts its weight, unless it is right already. */
  lemma {:induction false} SetBitAddsItsWeight(v: nat, k: nat, on: bool)
    ensures on == Bit(v, k) ==> SetBit(v, k, on) == v
    ensures on && !Bit(v, k) ==> SetBit(v, k, on) == v + Pow2(k)
    ensures !on && Bit(v, k) ==> SetBit(v, k, on) + Pow2(k) == v
  {
    if k > 0 {
      SetBitAddsItsWeight(v / 2, k - 1, on);
    }
  }

  lemma {:induction false} ZerosAreZero(s: seq<Byte>)
    requires forall i :: 0 <= i < |s| ==> s[i] == 0
    ensures BigEndian(s) == 0
  {
    if s != [] {
      ZerosAreZero(s[..|s| - 1]);
    }
  }

  /** A single byte among zeros. */
  lemma {:induction false} OneByteAmongZeros(s: seq<Byte>, at: nat)
    requires at < |s| && forall i :: 0 <= i < |s| && i != at ==> s[i] == 0
    ensures BigEndian(s) == s[at] * Pow2(8 * (|s| - 1 - at))
    decreases |s|
  {
    var front := s[..|s| - 1];
    if at == |s| - 1 {
      ZerosAreZero(front);
    } else {
      OneByteAmongZeros(front, at);
      Pow2Adds(8 * (|s| - 2 - at), 8);
      ByteWeight();
      Regroup(s[at], Pow2(8 * (|s| - 2 - at)));
    }
  }

  lemma Regroup(a: nat, p: nat)
    ensures a * p * 256 == a * (p * 256)
  {
  }

  lemma {:induction false} Pow2Adds(a: nat, b: nat)
    ensures Pow2(a + b) == Pow2(a) * Pow2(b)
  {
    if b > 0 {
      Pow2Adds(a, b - 1);
      assert Pow2(a) * (2 * Pow2(b - 1)) == 2 * (Pow2(a) * Pow2(b - 1));
    }
  }
}
