// CRC-32 as the packager computes it, on 32-bit words, and the polynomial division that this is: the machine word is
// shown to be a division register, so what divisions detect the loop detects.
module Crc32 {
  import opened Common
  import opened Powers

  // ---------------------------------------------------------------- the machine: shifts and xors

  const POLY: u32 := 0xedb88320

  /** Bitwise exclusive or. The sign JavaScript gives a 32-bit result is dropped by the next unsigned shift. */
  function Xor(a: nat, b: nat): nat
    decreases a + b
  {
    if a + b == 0 then 0 else (if a % 2 == b % 2 then 0 else 1) + 2 * Xor(a / 2, b / 2)
  }

  lemma {:induction false} XorBound(a: nat, b: nat, n: nat)
    requires a < Pow2(n) && b < Pow2(n)
    ensures Xor(a, b) < Pow2(n)
    decreases n
  {
    if n > 0 && a + b > 0 { XorBound(a / 2, b / 2, n - 1); }
  }

  function Xor32(a: u32, b: u32): u32
  {
    Pow2Of32();
    XorBound(a, b, 32);
    Xor(a, b)
  }

  /** The inner loop's step: shift right and, when a one falls out, add the reflected generator. */
  function Step(c: u32): u32
  {
    Xor32(c / 2, if c % 2 == 1 then POLY else 0)
  }

  function Steps(c: u32, n: nat): u32
    decreases n
  {
    if n == 0 then c else Steps(Step(c), n - 1)
  }

  function Feed(c: u32, b: byte): u32
  {
    Steps(Xor32(c, b), 8)
  }

  function Register(c: u32, bytes: seq<byte>): u32
    decreases bytes
  {
    if bytes == [] then c else Register(Feed(c, bytes[0]), bytes[1..])
  }

  function Crc(bytes: seq<byte>): u32
  {
    Xor32(Register(0xffffffff, bytes), 0xffffffff)
  }

  method Crc32Of(bytes: seq<byte>) returns (r: u32)
    ensures r == Crc(bytes)
  {
    var crc: u32 := 0xffffffff;
    for k := 0 to |bytes|
      invariant Register(crc, bytes[k..]) == Register(0xffffffff, bytes)
    {
      assert bytes[k..][1..] == bytes[k + 1..];
      ghost var fed := Feed(crc, bytes[k]);
      crc := Xor32(crc, bytes[k]);
      for i := 0 to 8
        invariant Steps(crc, 8 - i) == fed
      {
        crc := Xor32(crc / 2, if crc % 2 == 1 then POLY else 0);
      }
    }
    r := Xor32(crc, 0xffffffff);
  }

  // ---------------------------------------------------------------- the mathematics: a division register

  // Polynomials over the two-element field are sequences of coefficients, highest power first.

  type Word = s: seq<bool> | |s| == 32 witness Zero()

  function Zero(): (r: seq<bool>)
    ensures |r| == 32
  {
    seq(32, _ => false)
  }

  function Ones(): (r: Word)
    ensures forall j :: 0 <= j < 32 ==> r[j]
  {
    seq(32, _ => true)
  }

  /** x^32 + x^26 + x^23 + x^22 + x^16 + x^12 + x^11 + x^10 + x^8 + x^7 + x^5 + x^4 + x^2 + x + 1 */
  predicate Generator(k: int)
  {
    var e := 32 - k;
    || e == 32 || e == 26 || e == 23 || e == 22 || e == 16 || e == 12 || e == 11 || e == 10
    || e == 8 || e == 7 || e == 5 || e == 4 || e == 2 || e == 1 || e == 0
  }

  /** Take in one message bit: multiply the remainder by x, add the bit at x^32 and reduce. */
  function Shift(r: Word, b: bool): (s: Word)
    ensures forall j :: 0 <= j < 31 ==> s[j] == (r[j + 1] != ((r[0] != b) && Generator(j + 1)))
    ensures s[31] == (r[0] != b)
  {
    var q := r[0] != b;
    seq(32, j requires 0 <= j < 32 => (j < 31 && r[j + 1]) != (q && Generator(j + 1)))
  }

  function Reg(r: Word, bits: seq<bool>): Word
    decreases bits
  {
    if bits == [] then r else Shift(Reg(r, bits[..|bits| - 1]), bits[|bits| - 1])
  }

  lemma {:induction false} RegFront(r: Word, bits: seq<bool>)
    requires bits != []
    ensures Reg(r, bits) == Reg(Shift(r, bits[0]), bits[1..])
    decreases bits
  {
    var n := |bits| - 1;
    if n > 0 {
      RegFront(r, bits[..n]);
      assert bits[..n][1..] == bits[1..][..n - 1];
    } else {
      assert bits[..0] == [] && bits[1..] == [];
    }
  }

  lemma {:induction false} RegOfConcat(r: Word, a: seq<bool>, b: seq<bool>)
    ensures Reg(r, a + b) == Reg(Reg(r, a), b)
    decreases b
  {
    if b == [] {
      assert a + b == a;
    } else {
      var n := |b| - 1;
      RegOfConcat(r, a, b[..n]);
      assert (a + b)[..|a| + n] == a + b[..n];
    }
  }

  // ---------------------------------------------------------------- the register is the remainder

  /** The message times x^32 with its first 32 bits complemented: what preset ones and no final bits mean. */
  predicate Dividend(m: seq<bool>, k: nat)
  {
    (k < 32) != (k < |m| && m[k])
  }

  /** Coefficient k of quotient times generator: the schoolbook sum. */
  function ProductAt(q: seq<bool>, k: nat): bool
    decreases q
  {
    if q == [] then false
    else
      var i := |q| - 1;
      ProductAt(q[..i], k) != (q[i] && k >= i && Generator(k - i))
  }

  /** Dividend = q * generator + r, with r of degree below 32. */
  ghost predicate Divides(m: seq<bool>, q: seq<bool>, r: Word)
  {
    && |q| == |m|
    && forall k: nat :: k < |m| + 32 ==> Dividend(m, k) == (ProductAt(q, k) != (k >= |m| && r[k - |m|]))
  }

  lemma {:induction false} ProductDegree(q: seq<bool>, k: nat)
    requires k >= |q| + 32
    ensures !ProductAt(q, k)
    decreases q
  {
    if q != [] {
      ProductDegree(q[..|q| - 1], k);
    }
  }

  lemma {:induction false} OneMoreBit(m: seq<bool>, b: bool, q: seq<bool>, r: Word, k: nat)
    requires Divides(m, q, r) && k < |m| + 33
    ensures Dividend(m + [b], k) ==
            (ProductAt(q + [r[0] != b], k) != (k >= |m| + 1 && Shift(r, b)[k - |m| - 1]))
  {
    var n := |m|;
    var q1 := q + [r[0] != b];
    assert q1[..n] == q;
    if k == n + 32 {
      ProductDegree(q, k);
    } else {
      assert Dividend(m, k) == (ProductAt(q, k) != (k >= n && r[k - n]));
    }
  }

  /** The division register holds the remainder of the message by the generator, for every message. */
  lemma {:induction false} RegisterIsRemainder(m: seq<bool>) returns (q: seq<bool>)
    ensures Divides(m, q, Reg(Ones(), m))
    decreases m
  {
    if m == [] {
      q := [];
    } else {
      var n := |m| - 1;
      var q0 := RegisterIsRemainder(m[..n]);
      var r := Reg(Ones(), m[..n]);
      q := q0 + [r[0] != m[n]];
      assert m[..n] + [m[n]] == m;
      forall k: nat | k < |m| + 32
        ensures Dividend(m, k) == (ProductAt(q, k) != (k >= |m| && Reg(Ones(), m)[k - |m|]))
      {
        OneMoreBit(m[..n], m[n], q0, r, k);
      }
    }
  }

  lemma {:induction false} ProductPrefix(q: seq<bool>, k: nat)
    requires k < |q|
    ensures ProductAt(q, k) == (ProductAt(q[..k], k) != q[k])
    decreases q
  {
    var n := |q| - 1;
    if k < n {
      ProductPrefix(q[..n], k);
      assert q[..n][..k] == q[..k];
    }
  }

  lemma {:induction false} QuotientUnique(m: seq<bool>, q: seq<bool>, r: Word, p: seq<bool>, s: Word, k: nat)
    requires Divides(m, q, r) && Divides(m, p, s) && k <= |m|
    ensures q[..k] == p[..k]
    decreases k
  {
    if k > 0 {
      QuotientUnique(m, q, r, p, s, k - 1);
      ProductPrefix(q, k - 1);
      ProductPrefix(p, k - 1);
      assert Dividend(m, k - 1) == ProductAt(q, k - 1) && Dividend(m, k - 1) == ProductAt(p, k - 1);
      assert q[..k] == q[..k - 1] + [q[k - 1]] && p[..k] == p[..k - 1] + [p[k - 1]];
    }
  }

  /** There is only one quotient and one remainder, so "the remainder" is well defined. */
  lemma {:induction false} RemainderUnique(m: seq<bool>, q: seq<bool>, r: Word, p: seq<bool>, s: Word)
    requires Divides(m, q, r) && Divides(m, p, s)
    ensures q == p && r == s
  {
    QuotientUnique(m, q, r, p, s, |m|);
    assert q[..|m|] == q && p[..|m|] == p;
    forall j: nat | j < 32 ensures r[j] == s[j] {
      assert Dividend(m, |m| + j) == (ProductAt(q, |m| + j) != r[|m| + j - |m|]);
      assert Dividend(m, |m| + j) == (ProductAt(p, |m| + j) != s[|m| + j - |m|]);
    }
  }

  // ---------------------------------------------------------------- errors the register must notice

  lemma {:induction false} ShiftInjective(r: Word, s: Word, b: bool)
    requires Shift(r, b) == Shift(s, b)
    ensures r == s
  {
    var t := Shift(r, b);
    assert t[31] == (r[0] != b) && t[31] == (s[0] != b);
    forall j | 0 <= j < 32 ensures r[j] == s[j] {
      if j > 0 {
        assert t[j - 1] == (r[j] != ((r[0] != b) && Generator(j)));
        assert t[j - 1] == (s[j] != ((s[0] != b) && Generator(j)));
      }
    }
  }

  /** Different registers stay different whatever bits follow. */
  lemma {:induction false} RegInjective(r: Word, s: Word, bits: seq<bool>)
    requires Reg(r, bits) == Reg(s, bits)
    ensures r == s
    decreases bits
  {
    if bits != [] {
      var n := |bits| - 1;
      ShiftInjective(Reg(r, bits[..n]), Reg(s, bits[..n]), bits[n]);
      RegInjective(r, s, bits[..n]);
    }
  }

  ghost predicate Agree(r: Word, s: Word, from: nat)
  {
    forall j :: from <= j < 32 ==> r[j] == s[j]
  }

  lemma {:induction false} ShiftBack(r: Word, s: Word, b: bool, c: bool, from: nat)
    requires from < 32 && Agree(Shift(r, b), Shift(s, c), from)
    ensures Agree(r, s, from + 1) && (r[0] != b) == (s[0] != c)
  {
    var t, u := Shift(r, b), Shift(s, c);
    assert t[31] == u[31];
    forall j | from + 1 <= j < 32 ensures r[j] == s[j] {
      assert t[j - 1] == u[j - 1];
      assert t[j - 1] == (r[j] != ((r[0] != b) && Generator(j)));
      assert u[j - 1] == (s[j] != ((s[0] != c) && Generator(j)));
    }
  }

  lemma {:induction false} AgreeBefore(r: Word, s: Word, u: seq<bool>, v: seq<bool>, from: nat)
    requires |u| == |v| && from + |u| <= 32 && Agree(Reg(r, u), Reg(s, v), from)
    ensures Agree(r, s, from + |u|)
    decreases u
  {
    if u != [] {
      var n := |u| - 1;
      ShiftBack(Reg(r, u[..n]), Reg(s, v[..n]), u[n], v[n], from);
      AgreeBefore(r, s, u[..n], v[..n], from + 1);
    }
  }

  /** From one register, different stretches of up to 32 bits lead to different registers. */
  lemma {:induction false} ShortStretchesDiffer(r: Word, u: seq<bool>, v: seq<bool>)
    requires |u| == |v| <= 32 && Reg(r, u) == Reg(r, v)
    ensures u == v
    decreases u
  {
    if u != [] {
      RegFront(r, u);
      RegFront(r, v);
      AgreeBefore(Shift(r, u[0]), Shift(r, v[0]), u[1..], v[1..], 0);
      ShiftBack(r, r, u[0], v[0], |u| - 1);
      ShortStretchesDiffer(Shift(r, u[0]), u[1..], v[1..]);
      assert u == [u[0]] + u[1..] && v == [v[0]] + v[1..];
    }
  }

  // ---------------------------------------------------------------- the machine is the register

  /** The n low bits of x, lowest first: the order in which they leave the machine word. */
  function Bits(x: nat, n: nat): (r: seq<bool>)
    ensures |r| == n
    decreases n
  {
    if n == 0 then [] else [x % 2 == 1] + Bits(x / 2, n - 1)
  }

  /** Bit 0 of the machine word is the coefficient of the highest power: the word is reflected. */
  function WordBits(c: u32): Word { Bits(c, 32) }

  /** Transmission order: bytes in order, the lowest bit of each first. */
  function MessageBits(bytes: seq<byte>): (r: seq<bool>)
    ensures |r| == 8 * |bytes|
  {
    if bytes == [] then [] else Bits(bytes[0], 8) + MessageBits(bytes[1..])
  }

  lemma {:induction false} BitsOfXor(a: nat, b: nat, n: nat, j: nat)
    requires j < n
    ensures Bits(Xor(a, b), n)[j] == (Bits(a, n)[j] != Bits(b, n)[j])
    decreases n
  {
    var x := Xor(a, b);
    if a + b > 0 {
      assert x / 2 == Xor(a / 2, b / 2) && (x % 2 == 1) == ((a % 2 == 1) != (b % 2 == 1));
    }
    if j > 0 {
      BitsOfXor(a / 2, b / 2, n - 1, j - 1);
      assert a + b == 0 ==> x / 2 == Xor(a / 2, b / 2);
    }
  }

  lemma {:induction false} BitsAbove(x: nat, m: nat, n: nat, j: nat)
    requires x < Pow2(m) && m <= j < n
    ensures !Bits(x, n)[j]
    decreases n
  {
    if j > 0 {
      if m > 0 { BitsAbove(x / 2, m - 1, n - 1, j - 1); } else { BitsAbove(x / 2, 0, n - 1, j - 1); }
    }
  }

  lemma {:induction false} BitsPrefix(x: nat, n: nat, k: nat)
    requires k <= n
    ensures Bits(x, n)[..k] == Bits(x, k)
    decreases k
  {
    if k > 0 { BitsPrefix(x / 2, n - 1, k - 1); }
  }

  lemma {:induction false} BitsTellApart(x: nat, y: nat, n: nat)
    requires x < Pow2(n) && y < Pow2(n) && Bits(x, n) == Bits(y, n)
    ensures x == y
    decreases n
  {
    if n > 0 {
      assert Bits(x, n)[0] == Bits(y, n)[0] && Bits(x, n)[1..] == Bits(y, n)[1..];
      BitsTellApart(x / 2, y / 2, n - 1);
    }
  }

  lemma {:induction false} BitsOfHalf(c: u32, j: nat)
    requires j < 32
    ensures WordBits(c / 2)[j] == (j < 31 && WordBits(c)[j + 1])
  {
    Pow2Of32();
    if j < 31 {
      BitsPrefix(c / 2, 32, 31);
      assert WordBits(c / 2)[j] == WordBits(c / 2)[..31][j] == Bits(c / 2, 31)[j];
      assert WordBits(c) == [c % 2 == 1] + Bits(c / 2, 31);
    } else {
      assert Pow2(32) == 2 * Pow2(31);
      BitsAbove(c / 2, 31, 32, 31);
    }
  }

  lemma {:induction false} BitsByNibble(x: nat, n: nat, j: nat)
    requires 4 <= n && j < n
    ensures Bits(x, n)[j] == if j == 0 then x % 2 == 1 else if j == 1 then x / 2 % 2 == 1
                             else if j == 2 then x / 4 % 2 == 1 else if j == 3 then x / 8 % 2 == 1
                             else Bits(x / 16, n - 4)[j - 4]
  {
    assert Bits(x, n) == [x % 2 == 1] + Bits(x / 2, n - 1);
    assert Bits(x / 2, n - 1) == [x / 2 % 2 == 1] + Bits(x / 4, n - 2);
    assert Bits(x / 4, n - 2) == [x / 4 % 2 == 1] + Bits(x / 8, n - 3);
    assert Bits(x / 8, n - 3) == [x / 8 % 2 == 1] + Bits(x / 16, n - 4);
  }

  /** The hexadecimal digits of the constant, lowest first. */
  function PolyDigit(k: nat): nat
  {
    if k == 0 then 0x0 else if k == 1 then 0x2 else if k == 2 then 0x3 else if k == 3 then 0x8
    else if k == 4 then 0x8 else if k == 5 then 0xb else if k == 6 then 0xd else 0xe
  }

  function PolyFrom(k: nat): nat
    decreases 8 - k
  {
    if k >= 8 then 0 else PolyDigit(k) + 16 * PolyFrom(k + 1)
  }

  lemma {:induction false} PolyFromDigits()
    ensures PolyFrom(0) == POLY
  {
    assert PolyFrom(6) == 0xed;
    assert PolyFrom(4) == 0xedb8;
    assert PolyFrom(2) == 0xedb883;
  }

  function DigitBit(d: nat, i: nat): bool
  {
    if i == 0 then d % 2 == 1 else if i == 1 then d / 2 % 2 == 1 else if i == 2 then d / 4 % 2 == 1 else d / 8 % 2 == 1
  }

  lemma {:induction false} Half(q: nat, d: nat)
    ensures (2 * q + d) / 2 == q + d / 2 && (2 * q + d) % 2 == d % 2
  {}

  lemma {:induction false} LowDigit(x: nat, q: nat, d: nat)
    requires x == 16 * q + d
    ensures x % 2 == d % 2 && x / 2 % 2 == d / 2 % 2 && x / 4 % 2 == d / 4 % 2 && x / 8 % 2 == d / 8 % 2
  {
    Half(8 * q, d);
    Half(4 * q, d / 2);
    Half(2 * q, d / 4);
    Half(q, d / 8);
    assert x / 4 == x / 2 / 2 && x / 8 == x / 4 / 2 && d / 4 == d / 2 / 2 && d / 8 == d / 4 / 2;
  }

  lemma {:induction false} LowFour(x: nat, q: nat, d: nat, n: nat, r: nat)
    requires x == 16 * q + d && r < 4 <= n
    ensures Bits(x, n)[r] == DigitBit(d, r)
  {
    BitsByNibble(x, n, r);
    LowDigit(x, q, d);
  }

  lemma {:induction false} PolyBitsFrom(k: nat, i: nat, r: nat)
    requires k + i < 8 && r < 4
    ensures Bits(PolyFrom(k), 4 * (8 - k))[4 * i + r] == DigitBit(PolyDigit(k + i), r)
    decreases i
  {
    hide Bits, PolyFrom, PolyDigit;
    HighDigits(k);
    if i == 0 {
      LowFour(PolyFrom(k), PolyFrom(k + 1), PolyDigit(k), 4 * (8 - k), r);
    } else {
      BitsByNibble(PolyFrom(k), 4 * (8 - k), 4 * i + r);
      PolyBitsFrom(k + 1, i - 1, r);
    }
  }

  lemma {:induction false} HighDigits(k: nat)
    requires k < 8
    ensures PolyFrom(k) == PolyDigit(k) + 16 * PolyFrom(k + 1) && PolyDigit(k) < 16
    ensures PolyFrom(k) / 16 == PolyFrom(k + 1)
  {
    DropDigit(PolyFrom(k + 1), PolyDigit(k));
  }

  lemma {:induction false} DropDigit(q: nat, d: nat)
    requires d < 16
    ensures (d + 16 * q) / 16 == q
  {}

  lemma {:induction false} DigitsAreGenerator(i: nat, r: nat)
    requires i < 8 && r < 4
    ensures DigitBit(PolyDigit(i), r) == Generator(4 * i + r + 1)
  {}

  /** The constant in the loop is the generator, reflected. */
  lemma {:induction false} PolyIsGenerator(j: nat)
    requires j < 32
    ensures WordBits(POLY)[j] == Generator(j + 1)
  {
    PolyFromDigits();
    PolyBitsFrom(0, j / 4, j % 4);
    DigitsAreGenerator(j / 4, j % 4);
  }

  lemma {:induction false} BitsOfZero(n: nat, j: nat)
    requires j < n
    ensures !Bits(0, n)[j]
  {
    if j > 0 { BitsOfZero(n - 1, j - 1); }
  }

  /** One machine step is one shift of the division register with no new bit. */
  lemma {:induction false} BitsOfStep(c: u32, j: nat)
    requires j < 32
    ensures WordBits(Step(c))[j] == Shift(WordBits(c), false)[j]
  {
    var added: u32 := if c % 2 == 1 then POLY else 0;
    BitsOfXor(c / 2, added, 32, j);
    BitsOfHalf(c, j);
    PolyIsGenerator(j);
    BitsOfZero(32, j);
    assert WordBits(c)[0] == (c % 2 == 1);
  }

  /** The machine XORs a whole byte first and steps after: what is left of the byte lies on top of the register. */
  ghost predicate Pending(c: u32, r: Word, waiting: seq<bool>)
  {
    |waiting| <= 8 && forall j :: 0 <= j < 32 ==> WordBits(c)[j] == (r[j] != (j < |waiting| && waiting[j]))
  }

  lemma {:induction false} PendingStep(c: u32, r: Word, waiting: seq<bool>)
    requires waiting != [] && Pending(c, r, waiting)
    ensures Pending(Step(c), Shift(r, waiting[0]), waiting[1..])
  {
    var s := Shift(r, waiting[0]);
    assert WordBits(c)[0] == (r[0] != waiting[0]);
    forall j | 0 <= j < 32
      ensures WordBits(Step(c))[j] == (s[j] != (j < |waiting| - 1 && waiting[1..][j]))
    {
      BitsOfStep(c, j);
    }
  }

  lemma {:induction false} PendingSteps(c: u32, r: Word, waiting: seq<bool>)
    requires Pending(c, r, waiting)
    ensures WordBits(Steps(c, |waiting|)) == Reg(r, waiting)
    decreases waiting
  {
    if waiting == [] {
      assert WordBits(c) == r;
    } else {
      PendingStep(c, r, waiting);
      PendingSteps(Step(c), Shift(r, waiting[0]), waiting[1..]);
      RegFront(r, waiting);
    }
  }

  lemma {:induction false} FeedIsReg(c: u32, b: byte)
    ensures WordBits(Feed(c, b)) == Reg(WordBits(c), Bits(b, 8))
  {
    assert Pow2(8) == 256;
    BitsPrefix(b, 32, 8);
    forall j | 0 <= j < 32
      ensures WordBits(Xor32(c, b))[j] == (WordBits(c)[j] != (j < 8 && Bits(b, 8)[j]))
    {
      BitsOfXor(c, b, 32, j);
      if j < 8 {
        assert Bits(b, 32)[j] == Bits(b, 32)[..8][j];
      } else {
        BitsAbove(b, 8, 32, j);
      }
    }
    PendingSteps(Xor32(c, b), WordBits(c), Bits(b, 8));
  }

  lemma {:induction false} RegisterIsReg(c: u32, bytes: seq<byte>)
    ensures WordBits(Register(c, bytes)) == Reg(WordBits(c), MessageBits(bytes))
    decreases bytes
  {
    if bytes != [] {
      FeedIsReg(c, bytes[0]);
      RegisterIsReg(Feed(c, bytes[0]), bytes[1..]);
      RegOfConcat(WordBits(c), Bits(bytes[0], 8), MessageBits(bytes[1..]));
    }
  }

  lemma {:induction false} BitsOfOnes(n: nat, j: nat)
    requires j < n
    ensures Bits(Pow2(n) - 1, n)[j]
  {
    if j > 0 {
      assert (Pow2(n) - 1) / 2 == Pow2(n - 1) - 1;
      BitsOfOnes(n - 1, j - 1);
    }
  }

  lemma {:induction false} AllOnes()
    ensures WordBits(0xffffffff) == Ones()
  {
    Pow2Of32();
    hide Bits, Pow2;
    forall j | 0 <= j < 32 ensures WordBits(0xffffffff)[j] {
      BitsOfOnes(32, j);
    }
  }

  function Complement(r: Word): (s: Word)
    ensures forall j :: 0 <= j < 32 ==> s[j] == !r[j]
  {
    seq(32, j requires 0 <= j < 32 => !r[j])
  }

  lemma {:induction false} CrcBits(bytes: seq<byte>)
    ensures WordBits(Crc(bytes)) == Complement(Reg(Ones(), MessageBits(bytes)))
  {
    var c := Register(0xffffffff, bytes);
    AllOnes();
    RegisterIsReg(0xffffffff, bytes);
    forall j | 0 <= j < 32 ensures WordBits(Crc(bytes))[j] == !WordBits(c)[j] {
      BitsOfXor(c, 0xffffffff, 32, j);
    }
  }

  /** The CRC of a file, complemented, is the polynomial remainder of its bits by the generator. */
  lemma {:induction false} CrcIsRemainder(bytes: seq<byte>) returns (q: seq<bool>)
    ensures Divides(MessageBits(bytes), q, Complement(WordBits(Crc(bytes))))
  {
    CrcBits(bytes);
    assert Complement(WordBits(Crc(bytes))) == Reg(Ones(), MessageBits(bytes));
    q := RegisterIsRemainder(MessageBits(bytes));
  }

  // ---------------------------------------------------------------- no damage of up to four bytes is missed

  lemma {:induction false} SameBytes(u: seq<byte>, v: seq<byte>)
    requires MessageBits(u) == MessageBits(v)
    ensures u == v
    decreases u
  {
    assert |u| == |v|;
    if u != [] {
      assert MessageBits(u)[..8] == Bits(u[0], 8) && MessageBits(v)[..8] == Bits(v[0], 8);
      assert MessageBits(u)[8..] == MessageBits(u[1..]) && MessageBits(v)[8..] == MessageBits(v[1..]);
      assert Pow2(8) == 256;
      BitsTellApart(u[0], v[0], 8);
      SameBytes(u[1..], v[1..]);
    }
  }

  lemma {:induction false} MessageBitsOfConcat(u: seq<byte>, v: seq<byte>)
    ensures MessageBits(u + v) == MessageBits(u) + MessageBits(v)
    decreases u
  {
    if u == [] {
      assert u + v == v;
    } else {
      assert (u + v)[1..] == u[1..] + v;
      MessageBitsOfConcat(u[1..], v);
    }
  }

  lemma {:induction false} RegOfThree(before: seq<byte>, u: seq<byte>, after: seq<byte>)
    ensures Reg(Ones(), MessageBits(before + u + after))
         == Reg(Reg(Reg(Ones(), MessageBits(before)), MessageBits(u)), MessageBits(after))
  {
    MessageBitsOfConcat(before + u, after);
    MessageBitsOfConcat(before, u);
    RegOfConcat(Ones(), MessageBits(before) + MessageBits(u), MessageBits(after));
    RegOfConcat(Ones(), MessageBits(before), MessageBits(u));
  }

  /** Damage of any kind within four neighbouring bytes, a single byte included, always changes the CRC. */
  lemma {:induction false} DamageDetected(before: seq<byte>, u: seq<byte>, v: seq<byte>, after: seq<byte>)
    requires |u| == |v| <= 4 && u != v
    ensures Crc(before + u + after) != Crc(before + v + after)
  {
    hide Crc, Reg, MessageBits, Register, WordBits;
    if Crc(before + u + after) == Crc(before + v + after) {
      CrcBits(before + u + after);
      CrcBits(before + v + after);
      RegOfThree(before, u, after);
      RegOfThree(before, v, after);
      var r := Reg(Ones(), MessageBits(before));
      RegInjective(Reg(r, MessageBits(u)), Reg(r, MessageBits(v)), MessageBits(after));
      ShortStretchesDiffer(r, MessageBits(u), MessageBits(v));
      SameBytes(u, v);
    }
  }

}
