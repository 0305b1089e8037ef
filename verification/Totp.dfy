// One-time codes and the window of time they are accepted in.
module Totp {
  import opened Common
  import opened Decimals
  import opened Powers
  import opened CodeUnits
  import Base32

  datatype Failure = InvalidSecret | CounterOutOfRange

  /** The keyed digest, left open: SHA-1, SHA-256 and SHA-512 give 20, 32 and 64 bytes. */
  type Mac = (seq<byte>, seq<byte>) -> seq<byte>

  ghost predicate LongEnough(mac: Mac)
  {
    forall key, msg :: |mac(key, msg)| >= 20
  }

  // ---------------------------------------------------------------- one code

  /** `(a & 0x7f) << 24 | b << 16 | c << 8 | d`: the fields do not overlap, so the disjunction is a sum. */
  function Dynamic(a: nat, b: nat, c: nat, d: nat): nat
  {
    a % 128 * 0x100_0000 + b * 0x1_0000 + c * 0x100 + d
  }

  /** The four bytes at the offset that the last nibble names, without the sign bit. */
  function Truncate(digest: seq<byte>): (bin: nat)
    requires |digest| >= 20
  {
    var offset := digest[|digest| - 1] % 16;
    Dynamic(digest[offset], digest[offset + 1], digest[offset + 2], digest[offset + 3])
  }

  lemma {:induction false} FourBytes(b: seq<nat>)
    requires |b| == 4
    ensures FromDigits(b, 8) == ((b[0] * 256 + b[1]) * 256 + b[2]) * 256 + b[3]
  {
    Base32.Widths();
    hide Pow2;
    assert b[..3][..2] == b[..2] && b[..2][..1] == b[..1] && b[..1][..0] == [];
    assert FromDigits(b, 8) == FromDigits(b[..3], 8) * 256 + b[3];
    assert FromDigits(b[..3], 8) == FromDigits(b[..2], 8) * 256 + b[2];
    assert FromDigits(b[..2], 8) == FromDigits(b[..1], 8) * 256 + b[1];
    assert FromDigits(b[..1], 8) == FromDigits([], 8) * 256 + b[0];
  }

  lemma {:induction false} DropSign(a: nat, rest: nat)
    requires a < 256 && rest < 0x100_0000
    ensures (a * 0x100_0000 + rest) % 0x8000_0000 == a % 128 * 0x100_0000 + rest
  {
    if a >= 128 {
      assert a * 0x100_0000 + rest == 0x8000_0000 + ((a - 128) * 0x100_0000 + rest);
    }
  }

  /** RFC 4226: the dynamic binary code is the low 31 bits of the four bytes read as one big-endian number. */
  lemma {:induction false} TruncateIs(digest: seq<byte>)
    requires |digest| >= 20
    ensures var offset := digest[|digest| - 1] % 16;
      && offset + 4 < |digest|
      && Truncate(digest) == FromDigits(digest[offset..offset + 4], 8) % 0x8000_0000
    ensures Truncate(digest) < 0x8000_0000
  {
    var offset := digest[|digest| - 1] % 16;
    var b: seq<nat> := digest[offset..offset + 4];
    hide FromDigits;
    assert b[0] == digest[offset] && b[1] == digest[offset + 1];
    assert b[2] == digest[offset + 2] && b[3] == digest[offset + 3];
    FourBytes(b);
    DropSign(b[0], b[1] * 0x1_0000 + b[2] * 0x100 + b[3]);
  }

  function CodeText(bin: nat, digits: nat): string
  {
    PadStart(Decimal(bin % Pow10(digits)), digits)
  }

  /** The counter as eight big-endian bytes. */
  function Message(counter: nat): seq<byte>
  {
    DigitsBelow(counter, 8, 8);
    Base32.Widths();
    Base32.AsBytes(DigitsOf(counter, 8, 8))
  }

  predicate Writable(counter: int)
  {
    0 <= counter < 0x1_0000_0000_0000_0000
  }

  function Hotp(secret: seq<byte>, counter: int, digits: nat, mac: Mac): Result<string, Failure>
    requires LongEnough(mac)
  {
    if !Writable(counter) then Err(CounterOutOfRange)
    else Ok(CodeText(Truncate(mac(secret, Message(counter))), digits))
  }

  /** As many decimal digits as asked for, spelling the number modulo that power of ten. */
  lemma {:induction false} CodeTextShape(bin: nat, digits: nat)
    requires digits > 0
    ensures |CodeText(bin, digits)| == digits && AllDigits(CodeText(bin, digits))
    ensures Number(CodeText(bin, digits)) == bin % Pow10(digits)
  {
    var n := bin % Pow10(digits);
    DecimalWidth(n, digits);
    NumberOfDecimal(n);
    PadKeepsNumber(Decimal(n), digits);
  }

  lemma {:induction false} CounterRead(counter: int)
    requires Writable(counter)
    ensures FromDigits(Message(counter), 8) == counter
  {
    hide DigitsOf, FromDigits;
    assert Pow2(8 * 8) == 0x1_0000_0000_0000_0000 by {
      Pow2Of32();
      PowAdd(32, 32);
    }
    FromDigitsOf(counter, 8, 8);
  }

  /** Different counters are different messages: the digest sees the whole 64-bit counter. */
  lemma {:induction false} MessageInjective(a: int, b: int)
    requires Writable(a) && Writable(b) && Message(a) == Message(b)
    ensures a == b
  {
    hide Message;
    CounterRead(a);
    CounterRead(b);
  }

  // ---------------------------------------------------------------- time steps

  /** `at` in milliseconds, `step` in seconds. */
  function StepAt(at: int, step: nat): int
    requires step > 0
  {
    at / (1000 * step)
  }

  function Totp(secret: string, at: int, digits: nat, step: nat, mac: Mac): Result<string, Failure>
    requires step > 0 && LongEnough(mac)
  {
    match Base32.Decoded(secret)
    case Err(_) => Err(InvalidSecret)
    case Ok(key) => Hotp(key, StepAt(at, step), digits, mac)
  }

  function WithoutSpaces(s: string): string
  {
    if s == "" then "" else (if Space(s[0]) then "" else [s[0]]) + WithoutSpaces(s[1..])
  }

  predicate LooksLikeCode(clean: string, digits: nat)
  {
    |clean| == digits && AllDigits(clean)
  }

  ghost predicate Matches(key: seq<byte>, clean: string, lo: int, hi: int, digits: nat, mac: Mac)
    requires LongEnough(mac)
  {
    exists counter :: lo <= counter <= hi && Hotp(key, counter, digits, mac) == Ok(clean)
  }

  ghost function Verified(secret: string, code: string, at: int, digits: nat, step: nat, window: int, mac: Mac)
    : Result<bool, Failure>
    requires step > 0 && LongEnough(mac)
  {
    var clean, now := WithoutSpaces(code), StepAt(at, step);
    if !LooksLikeCode(clean, digits) then Ok(false)
    else
      match Base32.Decoded(secret)
      case Err(_) => Err(InvalidSecret)
      case Ok(key) =>
        if window >= 0 && !(Writable(now - window) && Writable(now + window)) then Err(CounterOutOfRange)
        else Ok(Matches(key, clean, now - window, now + window, digits, mac))
  }

  method VerifyTotp(secret: string, code: string, at: int, digits: nat, step: nat, window: int, mac: Mac)
    returns (r: Result<bool, Failure>)
    requires step > 0 && LongEnough(mac)
    ensures r == Verified(secret, code, at, digits, step, window, mac)
  {
    hide Hotp, LongEnough, StepAt, AllDigits;
    var clean := WithoutSpaces(code);
    if !LooksLikeCode(clean, digits) {
      return Ok(false);
    }
    var decoded := Base32.Base32Decode(secret);
    if decoded.Err? {
      return Err(InvalidSecret);
    }
    var now, ok, i := StepAt(at, step), false, -window;
    while i <= window
      invariant window >= 0 ==> -window <= i <= window + 1
      invariant window < 0 ==> i == -window && !ok
      invariant window >= 0 && i > -window ==> Writable(now - window) && Writable(now + i - 1)
      invariant ok <==> Matches(decoded.value, clean, now - window, now + i - 1, digits, mac)
      decreases window - i
    {
      var expected := Hotp(decoded.value, now + i, digits, mac);
      HotpRange(decoded.value, now + i, digits, mac);
      if expected.Err? {
        return Err(CounterOutOfRange);
      }
      ok := ok || expected.value == clean;
      i := i + 1;
    }
    r := Ok(ok);
  }

  lemma {:induction false} HotpRange(key: seq<byte>, counter: int, digits: nat, mac: Mac)
    requires LongEnough(mac)
    ensures Hotp(key, counter, digits, mac).Ok? <==> Writable(counter)
    ensures Hotp(key, counter, digits, mac).Err? ==> Hotp(key, counter, digits, mac).error == CounterOutOfRange
  {}

  lemma {:induction false} DigitIsNoSpace(c: char)
    requires IsDigit(c)
    ensures !Space(c)
  {}

  lemma {:induction false} DigitsKept(s: string)
    requires AllDigits(s)
    ensures WithoutSpaces(s) == s
  {
    hide IsDigit, Space;
    if s != "" {
      DigitIsNoSpace(s[0]);
      DigitsKept(s[1..]);
      assert [s[0]] + s[1..] == s;
    }
  }

  lemma {:induction false} QuotientMonotone(a: int, b: int, d: int, qa: int, qb: int)
    requires d > 0 && a <= b && qa * d <= a && b < qb * d + d
    ensures qa <= qb
  {
    if qa > qb { MulGap(qa, qb, d); }
  }

  lemma {:induction false} StepParts(t: int, step: nat)
    requires step > 0
    ensures var d := 1000 * step; var q := StepAt(t, step); q * d <= t < q * d + d
  {
  }

  /** Clocks that differ by at most `window` steps of time are at most `window` step numbers apart. */
  lemma {:induction false} StepsApart(t: int, u: int, step: nat, window: nat)
    requires step > 0 && t - 1000 * step * window <= u <= t + 1000 * step * window
    ensures StepAt(t, step) - window <= StepAt(u, step) <= StepAt(t, step) + window
  {
    hide StepAt;
    var d, q, p := 1000 * step, StepAt(t, step), StepAt(u, step);
    StepParts(t, step);
    StepParts(u, step);
    var w: int, back: int := window, 0 - window as int;
    Distribute(q, w, d);
    Distribute(q, back, d);
    assert d * w == w * d && back * d == -(w * d);
    QuotientMonotone(t - w * d, u, d, q - w, p);
    QuotientMonotone(u, t + w * d, d, p, q + w);
  }

  /**
   * A code made at time t is accepted at time u whenever the clocks differ by at most `window` steps,
   * however many spaces were typed into it.
   */
  lemma {:induction false} CodeAcceptedNearby(secret: string, typed: string, t: int, u: int, digits: nat, step: nat,
                                              window: nat, mac: Mac)
    requires step > 0 && digits > 0 && LongEnough(mac)
    requires Totp(secret, t, digits, step, mac).Ok?
    requires WithoutSpaces(typed) == Totp(secret, t, digits, step, mac).value
    requires t - 1000 * step * window <= u <= t + 1000 * step * window
    requires Writable(StepAt(u, step) - window) && Writable(StepAt(u, step) + window)
    ensures Verified(secret, typed, u, digits, step, window, mac) == Ok(true)
  {
    hide *;
    StepsApart(t, u, step, window);
    CodeOf(secret, t, digits, step, mac);
    CounterMatches(secret, typed, u, digits, step, window, mac, StepAt(t, step));
  }

  lemma {:induction false} CodeOf(secret: string, t: int, digits: nat, step: nat, mac: Mac)
    requires step > 0 && digits > 0 && LongEnough(mac) && Totp(secret, t, digits, step, mac).Ok?
    ensures Base32.Decoded(secret).Ok? && LooksLikeCode(Totp(secret, t, digits, step, mac).value, digits)
    ensures Hotp(Base32.Decoded(secret).value, StepAt(t, step), digits, mac) == Totp(secret, t, digits, step, mac)
  {
    hide StepAt, Truncate, Base32.Decoded, CodeText, Message;
    CodeTextShape(Truncate(mac(Base32.Decoded(secret).value, Message(StepAt(t, step)))), digits);
  }

  lemma {:induction false} CounterMatches(secret: string, typed: string, u: int, digits: nat, step: nat, window: nat,
                                          mac: Mac, counter: int)
    requires step > 0 && LongEnough(mac) && Base32.Decoded(secret).Ok?
    requires LooksLikeCode(WithoutSpaces(typed), digits)
    requires StepAt(u, step) - window <= counter <= StepAt(u, step) + window
    requires Hotp(Base32.Decoded(secret).value, counter, digits, mac) == Ok(WithoutSpaces(typed))
    requires Writable(StepAt(u, step) - window) && Writable(StepAt(u, step) + window)
    ensures Verified(secret, typed, u, digits, step, window, mac) == Ok(true)
  {
    hide StepAt, LongEnough, Base32.Decoded, WithoutSpaces, Hotp, LooksLikeCode;
  }

  /** With zero digits the code is still one character long, so nothing is ever accepted. */
  lemma {:induction false} ZeroDigitsRefused(secret: string, code: string, at: int, step: nat, window: int, mac: Mac)
    requires step > 0 && LongEnough(mac)
    ensures Verified(secret, code, at, 0, step, window, mac) != Ok(true)
  {
    hide StepAt, LongEnough, Truncate, Base32.Decoded, WithoutSpaces;
  }

  // ---------------------------------------------------------------- in plain numbers

  /** The counter's eight bytes, highest first. */
  lemma {:induction false} MessageIs(counter: nat)
    ensures |Message(counter)| == 8
    ensures forall k :: 0 <= k < 8 ==> Message(counter)[7 - k] == Mod(Div(counter, Pow2(8 * k)), 256)
  {
    Base32.Widths();
    hide Pow2, Div, Mod;
    forall k | 0 <= k < 8 ensures Message(counter)[7 - k] == Mod(Div(counter, Pow2(8 * k)), 256) {
      DigitAt(counter, 8, k);
    }
  }

  lemma {:induction false} DigitAt(v: nat, len: nat, k: nat)
    requires k < len
    ensures DigitsOf(v, 8, len)[len - 1 - k] == Mod(Div(v, Pow2(8 * k)), 256)
    decreases len
  {
    Base32.Widths();
    hide Pow2, Div, Mod;
    if k == 0 {
      DivByOneIs(v);
    } else {
      DigitAt(Div(v, 256), len - 1, k - 1);
      PowAdd(8 * (k - 1), 8);
      DivDiv(v, 256, Pow2(8 * (k - 1)));
    }
  }

  lemma {:induction false} DivByOneIs(v: nat)
    ensures Pow2(0) == 1 && Div(v, Pow2(0)) == v
  {}

  /** A code is accepted exactly if, without its spaces, it is the code of a time step at most `window` steps away. */
  lemma {:induction false} AcceptedIff(secret: string, code: string, at: int, digits: nat, step: nat, window: nat, mac: Mac)
    requires step > 0 && LongEnough(mac) && Base32.Decoded(secret).Ok?
    requires Writable(at / (1000 * step) - window) && Writable(at / (1000 * step) + window)
    ensures Verified(secret, code, at, digits, step, window, mac) == Ok(true) <==>
      && |WithoutSpaces(code)| == digits && (forall i :: 0 <= i < digits ==> '0' <= WithoutSpaces(code)[i] <= '9')
      && exists counter ::
           && at / (1000 * step) - window <= counter <= at / (1000 * step) + window
           && Hotp(Base32.Decoded(secret).value, counter, digits, mac) == Ok(WithoutSpaces(code))
  {
    hide LongEnough, Base32.Decoded, WithoutSpaces, Hotp;
  }

  /** The code of one counter: the keyed digest of its eight bytes, truncated, in decimal. */
  lemma {:induction false} HotpIs(secret: seq<byte>, counter: int, digits: nat, mac: Mac)
    requires LongEnough(mac) && digits > 0
    ensures Hotp(secret, counter, digits, mac).Ok? <==> 0 <= counter < 0x1_0000_0000_0000_0000
    ensures Hotp(secret, counter, digits, mac).Ok? ==>
      && var digest := mac(secret, Message(counter)); var code := Hotp(secret, counter, digits, mac).value;
      && |code| == digits && AllDigits(code) && Number(code) == Truncate(digest) % Pow10(digits)
  {
    hide CodeText, Truncate, Message;
    if 0 <= counter < 0x1_0000_0000_0000_0000 { CodeTextShape(Truncate(mac(secret, Message(counter))), digits); }
  }

  /** White space is dropped and nothing else. */
  lemma {:induction false} SpacesDropped(a: string, c: char, b: string)
    ensures WithoutSpaces(a + [c] + b) == WithoutSpaces(a) + (if Space(c) then "" else [c]) + WithoutSpaces(b)
    decreases |a|
  {
    if a == "" {
      assert (a + [c] + b)[1..] == b;
    } else {
      SpacesDropped(a[1..], c, b);
      assert (a + [c] + b)[1..] == a[1..] + [c] + b;
    }
  }
}
