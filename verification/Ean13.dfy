// In-store EAN-13 numbers: check digit and serial numbers.
module Ean13 {
  import opened Common
  import opened Decimals

  datatype Failure = NotTwelveDigits | SerialOutOfRange | NotThirteenDigits | WrongCheckDigit

  const MAX_SERIAL: int := 9_999_999_999

  // ---------------------------------------------------------------- check digit

  function Weighted(i: nat, digit: nat): nat { if i % 2 == 0 then digit else digit * 3 }

  /** Digits weighted 1, 3, 1, 3, ... from the left. */
  function WeightedSum(s: string): nat
    requires AllDigits(s)
  {
    if s == "" then 0 else WeightedSum(s[..|s| - 1]) + Weighted(|s| - 1, DigitValue(s[|s| - 1]))
  }

  function CheckDigit(body: string): char
    requires AllDigits(body)
  {
    DigitChar((10 - WeightedSum(body) % 10) % 10)
  }

  method Ean13CheckDigit(twelve: string) returns (r: Result<char, Failure>)
    ensures r == if |twelve| == 12 && AllDigits(twelve) then Ok(CheckDigit(twelve)) else Err(NotTwelveDigits)
  {
    if !(|twelve| == 12 && AllDigits(twelve)) {
      return Err(NotTwelveDigits);
    }
    var sum := 0;
    for i := 0 to 12
      invariant sum == WeightedSum(twelve[..i])
    {
      assert twelve[..i + 1][..i] == twelve[..i];
      var digit := DigitValue(twelve[i]);
      sum := sum + if i % 2 == 0 then digit else digit * 3;
    }
    assert twelve[..12] == twelve;
    r := Ok(DigitChar((10 - sum % 10) % 10));
  }

  /** Thirteen digits whose last is the check digit of the first twelve. */
  predicate Valid(barcode: string)
  {
    |barcode| == 13 && AllDigits(barcode) && CheckDigit(barcode[..12]) == barcode[12]
  }

  /** The check digit brings the weighted sum of all thirteen digits to a multiple of ten. */
  lemma {:induction false} ValidIffSumIsMultipleOfTen(barcode: string)
    requires |barcode| == 13 && AllDigits(barcode)
    ensures Valid(barcode) <==> WeightedSum(barcode) % 10 == 0
  {
    var body, c := barcode[..12], barcode[12];
    assert WeightedSum(barcode) == WeightedSum(body) + DigitValue(c);
  }

  lemma {:induction false} SumAfterUpdate(s: string, k: nat, c: char)
    requires AllDigits(s) && k < |s| && IsDigit(c)
    ensures AllDigits(s[k := c])
    ensures WeightedSum(s[k := c]) == WeightedSum(s) + Weighted(k, DigitValue(c)) - Weighted(k, DigitValue(s[k]))
  {
    var t := s[k := c];
    if k == |s| - 1 {
      assert t[..|t| - 1] == s[..|s| - 1];
    } else {
      SumAfterUpdate(s[..|s| - 1], k, c);
      assert t[..|t| - 1] == s[..|s| - 1][k := c];
    }
  }

  lemma {:induction false} OneDigitArithmetic(before: nat, after: nat, k: nat, x: nat, y: nat)
    requires after == before + Weighted(k, y) - Weighted(k, x) && x < 10 && y < 10 && x != y
    requires before % 10 == 0
    ensures after % 10 != 0
  {
    var m := before / 10;
    assert before == 10 * m;
  }

  /** Every single wrong digit of a valid barcode is detected, the check digit included. */
  lemma {:induction false} SingleErrorDetected(barcode: string, k: nat, c: char)
    requires Valid(barcode) && k < 13 && IsDigit(c) && c != barcode[k]
    ensures !Valid(barcode[k := c])
  {
    SumAfterUpdate(barcode, k, c);
    ValidIffSumIsMultipleOfTen(barcode);
    ValidIffSumIsMultipleOfTen(barcode[k := c]);
    OneDigitArithmetic(WeightedSum(barcode), WeightedSum(barcode[k := c]), k,
                       DigitValue(barcode[k]), DigitValue(c));
  }

  function Swapped(s: string, k: nat): string
    requires k + 1 < |s|
  {
    s[k := s[k + 1]][k + 1 := s[k]]
  }

  lemma {:induction false} SwapArithmetic(before: nat, after: nat, x: nat, y: nat)
    requires before % 10 == 0 && x < 10 && y < 10
    requires after == before + 2 * x - 2 * y || after == before + 2 * y - 2 * x
    ensures after % 10 == 0 <==> x == y || x == y + 5 || y == x + 5
  {
    var m := before / 10;
    assert before == 10 * m;
  }

  lemma {:induction false} SwapTerms(k: nat, x: nat, y: nat)
    ensures Weighted(k, y) - Weighted(k, x) + (Weighted(k + 1, x) - Weighted(k + 1, y))
         == if k % 2 == 0 then 2 * x - 2 * y else 2 * y - 2 * x
  {
    if k % 2 == 0 { assert (k + 1) % 2 == 1; } else { assert (k + 1) % 2 == 0; }
  }

  lemma {:induction false} SumAfterSwap(s: string, k: nat, x: nat, y: nat)
    requires AllDigits(s) && k + 1 < |s| && x == DigitValue(s[k]) && y == DigitValue(s[k + 1])
    ensures AllDigits(Swapped(s, k))
    ensures WeightedSum(Swapped(s, k)) - WeightedSum(s) as int == if k % 2 == 0 then 2 * x - 2 * y else 2 * y - 2 * x
  {
    SumAfterUpdate(s, k, s[k + 1]);
    SumAfterUpdate(s[k := s[k + 1]], k + 1, s[k]);
    SwapTerms(k, x, y);
  }

  /** Exchanging neighbours goes unnoticed exactly when the digits agree or differ by five. */
  lemma {:induction false} SwapUndetectedIff(barcode: string, k: nat)
    requires Valid(barcode) && k < 12
    ensures Valid(Swapped(barcode, k)) <==>
            (DigitValue(barcode[k]) - DigitValue(barcode[k + 1])) in {-5, 0, 5}
  {
    SumAfterSwap(barcode, k, DigitValue(barcode[k]), DigitValue(barcode[k + 1]));
    ValidIffSumIsMultipleOfTen(barcode);
    ValidIffSumIsMultipleOfTen(Swapped(barcode, k));
    SwapArithmetic(WeightedSum(barcode), WeightedSum(Swapped(barcode, k)),
                   DigitValue(barcode[k]), DigitValue(barcode[k + 1]));
  }

  // ---------------------------------------------------------------- serial numbers

  function MakeEan13(serial: int): (r: Result<string, Failure>)
  {
    if serial < 0 || serial > MAX_SERIAL then Err(SerialOutOfRange)
    else
      PadKeepsNumber(Decimal(serial), 10);
      var body := "20" + PadStart(Decimal(serial), 10);
      Ok(body + [CheckDigit(body)])
  }

  predicate IsInStore(barcode: string)
  {
    Valid(barcode) && barcode[..2] == "20"
  }

  function SerialOf(barcode: string): Option<int>
  {
    if IsInStore(barcode) then Some(Number(barcode[2..12])) else None
  }

  /** Every serial in range gets a valid in-store barcode from which exactly that serial is read. */
  lemma {:induction false} SerialRoundTrip(serial: int)
    ensures MakeEan13(serial).Ok? <==> 0 <= serial <= MAX_SERIAL
    ensures 0 <= serial <= MAX_SERIAL ==>
              IsInStore(MakeEan13(serial).value) && SerialOf(MakeEan13(serial).value) == Some(serial)
  {
    if 0 <= serial <= MAX_SERIAL {
      DecimalWidth(serial, 10);
      NumberOfDecimal(serial);
      PadKeepsNumber(Decimal(serial), 10);
      var digits := PadStart(Decimal(serial), 10);
      var barcode := MakeEan13(serial).value;
      assert barcode[..12] == "20" + digits && barcode[2..12] == digits && barcode[..2] == "20";
    }
  }

  /** And every in-store barcode is the one made for its serial: the two functions are inverses. */
  lemma {:induction false} BarcodeRoundTrip(barcode: string)
    requires IsInStore(barcode)
    ensures SerialOf(barcode).Some? && MakeEan13(SerialOf(barcode).value) == Ok(barcode)
  {
    var digits := barcode[2..12];
    var serial := Number(digits);
    NumberBound(digits);
    DecimalWidth(serial, 10);
    NumberOfDecimal(serial);
    PadKeepsNumber(Decimal(serial), 10);
    SameNumberSameDigits(PadStart(Decimal(serial), 10), digits);
    assert barcode[..12] == "20" + digits;
    assert barcode == barcode[..12] + [barcode[12]];
  }

  lemma {:induction false} MakeEan13Injective(a: int, b: int)
    requires MakeEan13(a).Ok? && MakeEan13(a) == MakeEan13(b)
    ensures a == b
  {
    SerialRoundTrip(a);
    SerialRoundTrip(b);
  }

  // ---------------------------------------------------------------- in plain numbers

  function D(s: string, i: nat): int
    requires i < |s|
  {
    s[i] as int - 48
  }

  /** Every second digit counts three times, and the check digit fills the sum up to a multiple of ten. */
  lemma {:induction false} CheckDigitIs(s: string)
    requires |s| == 12 && AllDigits(s)
    ensures '0' <= CheckDigit(s) <= '9'
    ensures (D(s, 0) + 3 * D(s, 1) + D(s, 2) + 3 * D(s, 3) + D(s, 4) + 3 * D(s, 5) + D(s, 6) + 3 * D(s, 7) + D(s, 8)
             + 3 * D(s, 9) + D(s, 10) + 3 * D(s, 11) + (CheckDigit(s) as int - 48)) % 10 == 0
  {
    SumOfTwelve(s);
    CheckDigitValue(s);
    hide *;
  }

  lemma {:induction false} SumOfTwelve(s: string)
    requires |s| == 12 && AllDigits(s)
    ensures WeightedSum(s) == D(s, 0) + 3 * D(s, 1) + D(s, 2) + 3 * D(s, 3) + D(s, 4) + 3 * D(s, 5) + D(s, 6) + 3 * D(s, 7)
                              + D(s, 8) + 3 * D(s, 9) + D(s, 10) + 3 * D(s, 11)
  {
    TwoMore(s, 0);
    TwoMore(s, 2);
    TwoMore(s, 4);
    TwoMore(s, 6);
    TwoMore(s, 8);
    TwoMore(s, 10);
    assert s[..12] == s && s[..0] == "";
    assert WeightedSum("") == 0;
    hide D, WeightedSum;
  }

  lemma {:induction false} CheckDigitValue(s: string)
    requires AllDigits(s)
    ensures '0' <= CheckDigit(s) <= '9' && (WeightedSum(s) + (CheckDigit(s) as int - 48)) % 10 == 0
  {
    hide WeightedSum;
  }

  lemma {:induction false} OneMore(s: string, n: nat)
    requires AllDigits(s) && n < |s|
    ensures AllDigits(s[..n + 1]) && AllDigits(s[..n])
    ensures WeightedSum(s[..n + 1]) == WeightedSum(s[..n]) + (if n % 2 == 0 then D(s, n) else 3 * D(s, n))
  {
    var t := s[..n + 1];
    assert t[..n] == s[..n] && t[n] == s[n];
    LastWeighted(t);
  }

  lemma {:induction false} LastWeighted(t: string)
    requires AllDigits(t) && t != ""
    ensures AllDigits(t[..|t| - 1])
    ensures WeightedSum(t) == WeightedSum(t[..|t| - 1]) + (if |t| % 2 == 1 then D(t, |t| - 1) else 3 * D(t, |t| - 1))
  {
    var n := |t| - 1;
    assert n % 2 == 0 <==> |t| % 2 == 1;
    assert WeightedSum(t) == WeightedSum(t[..n]) + Weighted(n, DigitValue(t[n]));
  }

  lemma {:induction false} TwoMore(s: string, n: nat)
    requires AllDigits(s) && n + 2 <= |s| && n % 2 == 0
    ensures AllDigits(s[..n + 2]) && AllDigits(s[..n])
    ensures WeightedSum(s[..n + 2]) == WeightedSum(s[..n]) + D(s, n) + 3 * D(s, n + 1)
  {
    OneMore(s, n);
    OneMore(s, n + 1);
    hide WeightedSum, D;
    assert (n + 1) % 2 == 1;
  }

  /** An in-store barcode is 20, the serial in ten digits, and a check digit. */
  lemma {:induction false} MadeIs(serial: int)
    requires 0 <= serial <= 9_999_999_999
    ensures MakeEan13(serial).Ok?
    ensures var b := MakeEan13(serial).value;
      |b| == 13 && AllDigits(b) && b[..2] == "20" && Number(b[2..12]) == serial && b[12] == CheckDigit(b[..12])
  {
    SerialRoundTrip(serial);
  }
}
