// Powers of two, quotients and remainders kept closed for the solver, and numbers written in digits of a fixed number
// of bits: the arithmetic under Base32, one-time codes and CRC-32.
module Powers {
  function Pow2(n: nat): (p: nat)
    ensures p > 0
  {
    if n == 0 then 1 else 2 * Pow2(n - 1)
  }

  lemma {:induction false} Pow2Of32()
    ensures Pow2(32) == 0x1_0000_0000
  {
    assert Pow2(8) == 256;
    assert Pow2(16) == 256 * Pow2(8);
    assert Pow2(24) == 256 * Pow2(16);
    assert Pow2(32) == 256 * Pow2(24);
  }

  lemma {:induction false} Twice(x: nat, y: nat)
    ensures 2 * (x * y) == 2 * x * y
  {}

  lemma {:induction false} PowAdd(a: nat, b: nat)
    ensures Pow2(a + b) == Pow2(a) * Pow2(b)
    decreases a
  {
    if a > 0 {
      PowAdd(a - 1, b);
      assert Pow2(a + b) == 2 * Pow2(a - 1 + b);
      Twice(Pow2(a - 1), Pow2(b));
    }
  }

  // ---------------------------------------------------------------- quotients and remainders

  /** Quotient and remainder by name, so that proofs can keep them closed. */
  function Div(v: nat, d: nat): (q: nat)
    requires d > 0
  {
    DivIsNat(v, d);
    v / d
  }

  lemma {:induction false} DivIsNat(v: nat, d: nat)
    requires d > 0
    ensures v / d >= 0
  {}

  function Mod(v: nat, d: nat): (r: nat)
    requires d > 0
    ensures r < d
  {
    v % d
  }

  lemma {:induction false} DivMod(v: nat, d: nat)
    requires d > 0
    ensures v == Div(v, d) * d + Mod(v, d)
  {}

  lemma {:induction false} DivUnique(n: nat, d: nat, q: nat, r: nat)
    requires r < d && n == q * d + r
    ensures Div(n, d) == q && Mod(n, d) == r
  {
    DivMod(n, d);
    EqualParts(Div(n, d), Mod(n, d), q, r, d);
  }

  lemma {:induction false} EqualParts(a: int, x: int, b: int, y: int, d: int)
    requires a * d + x == b * d + y && 0 <= x < d && 0 <= y < d
    ensures a == b && x == y
  {
    if a < b {
      MulGap(b, a, d);
    } else if b < a {
      MulGap(a, b, d);
    }
  }

  lemma {:induction false} MulGap(a: int, b: int, d: int)
    requires a > b && d >= 0
    ensures a * d >= b * d + d
  {
    assert (a - b - 1) * d >= 0;
  }

  lemma {:induction false} MulPositive(a: nat, b: nat)
    requires a > 0 && b > 0
    ensures a * b > 0
  {}

  lemma {:induction false} MulAssoc(a: int, b: int, c: int)
    ensures a * b * c == a * (b * c)
  {}

  lemma {:induction false} Distribute(a: int, b: int, c: int)
    ensures (a + b) * c == a * c + b * c
  {}

  lemma {:induction false} BelowProduct(t: nat, r: nat, a: nat, b: nat)
    requires t < b && r < a
    ensures t * a + r < b * a
  {
    MulGap(b, t, a);
  }

  lemma {:induction false} DivDiv(v: nat, a: nat, b: nat)
    requires a > 0 && b > 0
    ensures b * a > 0 && Div(Div(v, a), b) == Div(v, b * a)
  {
    hide Div, Mod;
    var q, r := Div(v, a), Mod(v, a);
    var s, t := Div(q, b), Mod(q, b);
    DivMod(v, a);
    DivMod(q, b);
    Distribute(s * b, t, a);
    MulAssoc(s, b, a);
    BelowProduct(t, r, a, b);
    MulPositive(b, a);
    DivUnique(v, b * a, s, t * a + r);
  }

  lemma {:induction false} DivOfSum(m: nat, x: nat, d: nat)
    requires d > 0
    ensures Div(m * d + x, d) == m + Div(x, d) && Mod(m * d + x, d) == Mod(x, d)
  {
    hide Div, Mod;
    DivMod(x, d);
    Distribute(m, Div(x, d), d);
    DivUnique(m * d + x, d, m + Div(x, d), Mod(x, d));
  }

  /** A field of w bits at position k is the same in v and in v cut to 2^top, if it lies below the cut. */
  lemma {:induction false} FieldOfLow(v: nat, k: nat, w: nat, top: nat)
    requires k + w <= top
    ensures Mod(Div(Mod(v, Pow2(top)), Pow2(k)), Pow2(w)) == Mod(Div(v, Pow2(k)), Pow2(w))
  {
    hide Div, Mod, Pow2;
    var rest := top - k - w;
    PowAdd(rest + w, k);
    PowAdd(rest, w);
    var q, low := Div(v, Pow2(top)), Mod(v, Pow2(top));
    DivMod(v, Pow2(top));
    MulAssoc(q, Pow2(rest) * Pow2(w), Pow2(k));
    MulAssoc(q, Pow2(rest), Pow2(w));
    DivOfSum(q * Pow2(rest) * Pow2(w), low, Pow2(k));
    DivOfSum(q * Pow2(rest), Div(low, Pow2(k)), Pow2(w));
  }

  // ---------------------------------------------------------------- numbers in digits of w bits

  /** The number whose digits, of w bits each, are ds: most significant first. */
  function FromDigits(ds: seq<nat>, w: nat): nat
  {
    if ds == [] then 0 else FromDigits(ds[..|ds| - 1], w) * Pow2(w) + ds[|ds| - 1]
  }

  /** The lowest `len` digits, of w bits each, of v. */
  function DigitsOf(v: nat, w: nat, len: nat): (r: seq<nat>)
    ensures |r| == len
    decreases len
  {
    if len == 0 then [] else DigitsOf(Div(v, Pow2(w)), w, len - 1) + [Mod(v, Pow2(w))]
  }

  predicate Below(ds: seq<nat>, bound: nat)
  {
    forall i :: 0 <= i < |ds| ==> ds[i] < bound
  }

  lemma {:induction false} DigitsBelow(v: nat, w: nat, len: nat)
    ensures Below(DigitsOf(v, w, len), Pow2(w))
    decreases len
  {
    hide Div, Mod, Pow2;
    if len > 0 { DigitsBelow(Div(v, Pow2(w)), w, len - 1); }
  }

  lemma {:induction false} FromDigitsBound(ds: seq<nat>, w: nat)
    requires Below(ds, Pow2(w))
    ensures FromDigits(ds, w) < Pow2(|ds| * w)
  {
    if ds == [] {
      assert |ds| * w == 0;
    } else {
      hide Pow2;
      var n := |ds| - 1;
      FromDigitsBound(ds[..n], w);
      Distribute(n, 1, w);
      PowAdd(n * w, w);
      BelowProduct(FromDigits(ds[..n], w), ds[n], Pow2(w), Pow2(n * w));
    }
  }

  lemma {:induction false} DigitsOfFromDigits(ds: seq<nat>, w: nat)
    requires Below(ds, Pow2(w))
    ensures DigitsOf(FromDigits(ds, w), w, |ds|) == ds
  {
    hide Div, Mod, Pow2;
    if ds != [] {
      var n := |ds| - 1;
      DivUnique(FromDigits(ds, w), Pow2(w), FromDigits(ds[..n], w), ds[n]);
      DigitsOfFromDigits(ds[..n], w);
      assert ds == ds[..n] + [ds[n]];
    }
  }

  lemma {:induction false} FromDigitsOf(v: nat, w: nat, len: nat)
    requires v < Pow2(len * w)
    ensures FromDigits(DigitsOf(v, w, len), w) == v
    decreases len
  {
    if len == 0 {
      assert len * w == 0;
    } else {
      hide Div, Mod, Pow2;
      QuotientBound(v, w, len - 1);
      FromDigitsOf(Div(v, Pow2(w)), w, len - 1);
      DivMod(v, Pow2(w));
      LastOfDigits(v, w, len);
    }
  }

  lemma {:induction false} LastOfDigits(v: nat, w: nat, len: nat)
    requires len > 0
    ensures var ds := DigitsOf(v, w, len);
      ds[..len - 1] == DigitsOf(Div(v, Pow2(w)), w, len - 1) && ds[len - 1] == Mod(v, Pow2(w))
  {
    hide Div, Mod, Pow2;
  }

  lemma {:induction false} QuotientBound(v: nat, w: nat, len: nat)
    requires v < Pow2((len + 1) * w)
    ensures Div(v, Pow2(w)) < Pow2(len * w)
  {
    hide Div, Mod, Pow2;
    Distribute(len, 1, w);
    PowAdd(len * w, w);
    var q, B := Div(v, Pow2(w)), Pow2(len * w);
    DivMod(v, Pow2(w));
    if q > B {
      MulGap(q, B, Pow2(w));
    }
  }
}
