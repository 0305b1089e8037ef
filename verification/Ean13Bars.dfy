// The bars of an EAN-13: drawing the 95 modules and reading them back.
module Ean13Bars {
  import opened Common
  import opened Decimals
  import opened Ean13

  const L_CODES: seq<string> := [
    "0001101", "0011001", "0010011", "0111101", "0100011", "0110001", "0101111", "0111011", "0110111", "0001011"]

  /** The first digit is not drawn; it chooses which of the next six use L (0) and which G (1). */
  const PARITY: seq<string> := [
    "000000", "001011", "001101", "001110", "010011", "011001", "011100", "010101", "010110", "011010"]

  const GUARD_SIDE: string := "101"
  const GUARD_CENTER: string := "01010"
  const EAN13_MODULES: nat := 95

  function Flip(code: string): (r: string)
    ensures |r| == |code| && forall i :: 0 <= i < |code| ==> r[i] == (if code[i] == '0' then '1' else '0')
  {
    seq(|code|, i requires 0 <= i < |code| => if code[i] == '0' then '1' else '0')
  }

  function Reverse(s: string): (r: string)
    ensures |r| == |s| && forall i :: 0 <= i < |s| ==> r[i] == s[|s| - 1 - i]
  {
    seq(|s|, i requires 0 <= i < |s| => s[|s| - 1 - i])
  }

  /** Only L is written down: R is its complement and G the mirror image of R. */
  function R_CODES(): (r: seq<string>)
    ensures |r| == 10 && forall d :: 0 <= d < 10 ==> r[d] == Flip(L_CODES[d])
  {
    seq(10, d requires 0 <= d < 10 => Flip(L_CODES[d]))
  }

  function G_CODES(): (r: seq<string>)
    ensures |r| == 10 && forall d :: 0 <= d < 10 ==> r[d] == Reverse(Flip(L_CODES[d]))
  {
    seq(10, d requires 0 <= d < 10 => Reverse(Flip(L_CODES[d])))
  }

  function IndexFrom(table: seq<string>, s: string, from: nat): (r: Option<nat>)
    requires from <= |table|
    ensures r.Some? ==> from <= r.value < |table| && table[r.value] == s
    decreases |table| - from
  {
    if from == |table| then None else if table[from] == s then Some(from) else IndexFrom(table, s, from + 1)
  }

  function IndexOf(table: seq<string>, s: string): (r: Option<nat>)
    ensures r.Some? ==> r.value < |table| && table[r.value] == s
  {
    IndexFrom(table, s, 0)
  }

  lemma {:induction false} IndexFound(table: seq<string>, s: string, from: nat, k: nat)
    requires from <= k < |table| && table[k] == s
    ensures IndexFrom(table, s, from).Some?
    decreases k - from
  {
    if from < k && table[from] != s { IndexFound(table, s, from + 1, k); }
  }

  // ---------------------------------------------------------------- the tables tell every code apart

  function Bit(c: char): nat { if c == '1' then 1 else 0 }

  function CodeNumber(s: string): nat
    requires |s| == 7
  {
    64 * Bit(s[0]) + 32 * Bit(s[1]) + 16 * Bit(s[2]) + 8 * Bit(s[3]) + 4 * Bit(s[4]) + 2 * Bit(s[5]) + Bit(s[6])
  }

  function Pick(k: nat, a0: nat, a1: nat, a2: nat, a3: nat, a4: nat, a5: nat, a6: nat, a7: nat, a8: nat, a9: nat): nat
  {
    if k == 0 then a0 else if k == 1 then a1 else if k == 2 then a2 else if k == 3 then a3 else if k == 4 then a4
    else if k == 5 then a5 else if k == 6 then a6 else if k == 7 then a7 else if k == 8 then a8 else a9
  }

  lemma {:induction false} LNumbers(d: nat)
    requires d < 10
    ensures |L_CODES[d]| == 7
    ensures CodeNumber(L_CODES[d]) == Pick(d, 13, 25, 19, 61, 35, 49, 47, 59, 55, 11)
  {}

  lemma {:induction false} BinaryL(d: nat)
    requires d < 10
    ensures |L_CODES[d]| == 7 && forall i :: 0 <= i < 7 ==> L_CODES[d][i] == '0' || L_CODES[d][i] == '1'
  {}

  lemma {:induction false} GNumbers(d: nat)
    requires d < 10
    ensures |G_CODES()[d]| == 7
    ensures CodeNumber(G_CODES()[d]) == Pick(d, 39, 51, 27, 33, 29, 57, 5, 17, 9, 23)
  {
    BinaryL(d);
    var g, l := G_CODES()[d], L_CODES[d];
    assert Bit(g[0]) == 1 - Bit(l[6]) && Bit(g[1]) == 1 - Bit(l[5]) && Bit(g[2]) == 1 - Bit(l[4])
        && Bit(g[3]) == 1 - Bit(l[3]) && Bit(g[4]) == 1 - Bit(l[2]) && Bit(g[5]) == 1 - Bit(l[1])
        && Bit(g[6]) == 1 - Bit(l[0]);
  }

  lemma {:induction false} LCodeFound(d: nat)
    requires d < 10
    ensures IndexOf(L_CODES, L_CODES[d]) == Some(d)
  {
    IndexFound(L_CODES, L_CODES[d], 0, d);
    LNumbers(d);
    LNumbers(IndexOf(L_CODES, L_CODES[d]).value);
  }

  lemma {:induction false} GCodeFound(d: nat)
    requires d < 10
    ensures IndexOf(G_CODES(), G_CODES()[d]) == Some(d)
  {
    IndexFound(G_CODES(), G_CODES()[d], 0, d);
    GNumbers(d);
    GNumbers(IndexOf(G_CODES(), G_CODES()[d]).value);
  }

  lemma {:induction false} GCodeIsNoLCode(d: nat)
    requires d < 10
    ensures IndexOf(L_CODES, G_CODES()[d]) == None
  {
    GNumbers(d);
    var x := IndexOf(L_CODES, G_CODES()[d]);
    if x.Some? { LNumbers(x.value); }
  }

  lemma {:induction false} RCodeFound(d: nat)
    requires d < 10
    ensures IndexOf(R_CODES(), R_CODES()[d]) == Some(d)
  {
    IndexFound(R_CODES(), R_CODES()[d], 0, d);
    var r := IndexOf(R_CODES(), R_CODES()[d]);
    LNumbers(d);
    LNumbers(r.value);
  }

  function ParityNumber(s: string): nat
    requires |s| == 6
  {
    32 * Bit(s[0]) + 16 * Bit(s[1]) + 8 * Bit(s[2]) + 4 * Bit(s[3]) + 2 * Bit(s[4]) + Bit(s[5])
  }

  lemma {:induction false} ParityNumbers(d: nat)
    requires d < 10
    ensures |PARITY[d]| == 6 && IsParity(PARITY[d])
    ensures ParityNumber(PARITY[d]) == Pick(d, 0, 11, 13, 14, 19, 25, 28, 21, 22, 26)
  {}

  lemma {:induction false} ParityFound(d: nat)
    requires d < 10
    ensures IndexOf(PARITY, PARITY[d]) == Some(d)
  {
    IndexFound(PARITY, PARITY[d], 0, d);
    var r := IndexOf(PARITY, PARITY[d]);
    ParityNumbers(d);
    ParityNumbers(r.value);
  }

  lemma {:induction false} AllGIsNoParity()
    ensures IndexOf(PARITY, "111111") == None
  {
    var r := IndexOf(PARITY, "111111");
    if r.Some? { ParityNumbers(r.value); }
  }

  // Drawing and reading take the tables as a value, so that what they need of them is said once.

  datatype Tables = Tables(l: seq<string>, g: seq<string>, r: seq<string>, parity: seq<string>)

  predicate IsParity(parity: string) { forall i :: 0 <= i < |parity| ==> parity[i] == '0' || parity[i] == '1' }

  predicate Shaped(t: Tables)
  {
    && |t.l| == |t.g| == |t.r| == |t.parity| == 10
    && (forall d :: 0 <= d < 10 ==> |t.l[d]| == 7 && |t.g[d]| == 7 && |t.r[d]| == 7)
    && (forall d :: 0 <= d < 10 ==> |t.parity[d]| == 6 && IsParity(t.parity[d]))
  }

  predicate Clear(t: Tables, d: nat)
    requires Shaped(t) && d < 10
  {
    && IndexOf(t.l, t.l[d]) == Some(d)
    && IndexOf(t.g, t.g[d]) == Some(d)
    && IndexOf(t.l, t.g[d]) == None
    && IndexOf(t.r, t.r[d]) == Some(d)
    && IndexOf(t.parity, t.parity[d]) == Some(d)
    && t.g[d] == Reverse(t.r[d])
  }

  /** No code is read as another one, R and G mirror each other, and six G codes are no parity. */
  predicate Unambiguous(t: Tables)
  {
    && Shaped(t)
    && (forall d :: 0 <= d < 10 ==> Clear(t, d))
    && IndexOf(t.parity, Ones(6)) == None
  }

  function Standard(): Tables
  {
    Tables(L_CODES, G_CODES(), R_CODES(), PARITY)
  }

  lemma {:induction false} StandardShaped()
    ensures Shaped(Standard())
  {
    forall d: nat | d < 10
      ensures var t := Standard();
        |t.l[d]| == 7 && |t.g[d]| == 7 && |t.r[d]| == 7 && |t.parity[d]| == 6 && IsParity(t.parity[d])
    {
      LNumbers(d);
      GNumbers(d);
      ParityNumbers(d);
    }
  }

  lemma {:induction false} StandardClear(d: nat)
    requires d < 10 && Shaped(Standard())
    ensures Clear(Standard(), d)
  {
    LCodeFound(d);
    GCodeFound(d);
    GCodeIsNoLCode(d);
    RCodeFound(d);
    ParityFound(d);
  }

  lemma {:induction false} StandardUnambiguous()
    ensures Unambiguous(Standard())
  {
    StandardShaped();
    forall d: nat | d < 10 ensures Clear(Standard(), d) {
      StandardClear(d);
    }
    SixOnes();
    AllGIsNoParity();
  }

  function Ones(n: nat): (r: string)
    ensures |r| == n && IsParity(r)
  {
    if n == 0 then "" else "1" + Ones(n - 1)
  }

  lemma {:induction false} SixOnes()
    ensures Ones(6) == "111111"
  {
    assert Ones(3) == "111";
    assert Ones(6) == "1" + ("1" + ("1" + Ones(3)));
  }

  // ---------------------------------------------------------------- drawing

  function LeftCode(t: Tables, c: char, parity: char): string
    requires Shaped(t)
    requires IsDigit(c)
  {
    if parity == '0' then t.l[DigitValue(c)] else t.g[DigitValue(c)]
  }

  function LeftBars(t: Tables, digits: string, parity: string): string
    requires Shaped(t)
    requires AllDigits(digits) && |digits| == |parity|
  {
    if digits == "" then "" else LeftCode(t, digits[0], parity[0]) + LeftBars(t, digits[1..], parity[1..])
  }

  function RightBars(t: Tables, digits: string): string
    requires Shaped(t)
    requires AllDigits(digits)
  {
    if digits == "" then "" else t.r[DigitValue(digits[0])] + RightBars(t, digits[1..])
  }

  function ModulesOf(t: Tables, barcode: string): string
    requires Shaped(t)
    requires Valid(barcode)
  {
    GUARD_SIDE + LeftBars(t, barcode[1..7], t.parity[DigitValue(barcode[0])]) + GUARD_CENTER
    + RightBars(t, barcode[7..13]) + GUARD_SIDE
  }

  method Draw(t: Tables, barcode: string) returns (out: string)
    requires Shaped(t) && Valid(barcode)
    ensures out == ModulesOf(t, barcode)
  {
    var parity, left, right := t.parity[DigitValue(barcode[0])], barcode[1..7], barcode[7..13];
    out := GUARD_SIDE;
    for i := 0 to 6
      invariant out + LeftBars(t, left[i..], parity[i..]) == GUARD_SIDE + LeftBars(t, left, parity)
    {
      assert left[i..][1..] == left[i + 1..] && parity[i..][1..] == parity[i + 1..];
      out := out + if parity[i] == '0' then t.l[DigitValue(left[i])] else t.g[DigitValue(left[i])];
    }
    assert out == GUARD_SIDE + LeftBars(t, left, parity);
    out := out + GUARD_CENTER;
    ghost var half := out;
    for i := 0 to 6
      invariant out + RightBars(t, right[i..]) == half + RightBars(t, right)
    {
      assert right[i..][1..] == right[i + 1..];
      out := out + t.r[DigitValue(right[i])];
    }
    assert out == half + RightBars(t, right);
    out := out + GUARD_SIDE;
  }

  method Ean13Modules(barcode: string) returns (r: Result<string, Failure>)
    ensures Shaped(Standard())
    ensures r == if !(|barcode| == 13 && AllDigits(barcode)) then Err(NotThirteenDigits)
                 else if !Valid(barcode) then Err(WrongCheckDigit)
                 else Ok(ModulesOf(Standard(), barcode))
  {
    StandardUnambiguous();
    if !(|barcode| == 13 && AllDigits(barcode)) {
      return Err(NotThirteenDigits);
    }
    var check := Ean13CheckDigit(barcode[..12]);
    if check.value != barcode[12] {
      return Err(WrongCheckDigit);
    }
    var out := Draw(Standard(), barcode);
    r := Ok(out);
  }

  // ---------------------------------------------------------------- reading

  /** Parity and digits of a row of seven-module codes read with the L and G tables. */
  function ReadLeft(t: Tables, bits: string): Option<(string, string)>
    requires Shaped(t)
    requires |bits| % 7 == 0
  {
    if bits == "" then Some(("", ""))
    else
      var asL, asG := IndexOf(t.l, bits[..7]), IndexOf(t.g, bits[..7]);
      if asL.None? && asG.None? then None
      else
        var rest := ReadLeft(t, bits[7..]);
        if rest.None? then None
        else if asL.Some? then Some(("0" + rest.value.0, [DigitChar(asL.value)] + rest.value.1))
        else Some(("1" + rest.value.0, [DigitChar(asG.value)] + rest.value.1))
  }

  function ReadRight(t: Tables, bits: string): Option<string>
    requires Shaped(t)
    requires |bits| % 7 == 0
  {
    if bits == "" then Some("")
    else
      var d, rest := IndexOf(t.r, bits[..7]), ReadRight(t, bits[7..]);
      if d.None? || rest.None? then None else Some([DigitChar(d.value)] + rest.value)
  }

  predicate Framed(modules: string)
  {
    && |modules| == EAN13_MODULES
    && modules[0..3] == GUARD_SIDE && modules[45..50] == GUARD_CENTER && modules[92..95] == GUARD_SIDE
  }

  function Decode(t: Tables, modules: string): Option<string>
    requires Shaped(t)
  {
    if !Framed(modules) then None
    else
      var left, right := ReadLeft(t, modules[3..45]), ReadRight(t, modules[50..92]);
      if left.None? || right.None? then None
      else
        var first := IndexOf(t.parity, left.value.0);
        if first.None? then None
        else
          var barcode := [DigitChar(first.value)] + left.value.1 + right.value;
          if Valid(barcode) then Some(barcode) else None
  }

  method ReadLeftHalf(t: Tables, bits: string) returns (r: Option<(string, string)>)
    requires Shaped(t) && |bits| == 42
    ensures r == ReadLeft(t, bits)
  {
    var parity, digits := "", "";
    ExtendNothing(ReadLeft(t, bits), "", "");
    assert bits[7 * 0..] == bits;
    for i := 0 to 6
      invariant ReadLeft(t, bits) == Extend(parity, digits, ReadLeft(t, bits[7 * i..]))
    {
      var chunk := bits[7 * i..7 * i + 7];
      ghost var tail := bits[7 * (i + 1)..];
      assert bits[7 * i..] == chunk + tail;
      ReadLeftUnfold(t, chunk, tail);
      var asL, asG := IndexOf(t.l, chunk), IndexOf(t.g, chunk);
      if asL.Some? {
        ExtendTwice(parity, digits, "0", [DigitChar(asL.value)], ReadLeft(t, tail));
        parity, digits := parity + "0", digits + [DigitChar(asL.value)];
      } else if asG.Some? {
        ExtendTwice(parity, digits, "1", [DigitChar(asG.value)], ReadLeft(t, tail));
        parity, digits := parity + "1", digits + [DigitChar(asG.value)];
      } else {
        return None;
      }
    }
    assert bits[7 * 6..] == "";
    ExtendNothing(None, parity, digits);
    r := Some((parity, digits));
  }

  function Extend(parity: string, digits: string, rest: Option<(string, string)>): Option<(string, string)>
  {
    if rest.None? then None else Some((parity + rest.value.0, digits + rest.value.1))
  }

  lemma {:induction false} ExtendNothing(rest: Option<(string, string)>, parity: string, digits: string)
    ensures Extend("", "", rest) == rest
    ensures Extend(parity, digits, Some(("", ""))) == Some((parity, digits))
  {
    if rest.Some? {
      assert "" + rest.value.0 == rest.value.0 && "" + rest.value.1 == rest.value.1;
    }
    assert parity + "" == parity && digits + "" == digits;
  }

  lemma {:induction false} ExtendTwice(parity: string, digits: string, p: string, d: string,
                                       rest: Option<(string, string)>)
    ensures Extend(parity, digits, Extend(p, d, rest)) == Extend(parity + p, digits + d, rest)
  {
    if rest.Some? {
      assert parity + (p + rest.value.0) == (parity + p) + rest.value.0;
      assert digits + (d + rest.value.1) == (digits + d) + rest.value.1;
    }
  }

  lemma {:induction false} ReadLeftUnfold(t: Tables, chunk: string, tail: string)
    requires Shaped(t) && |chunk| == 7 && |tail| % 7 == 0
    ensures (|chunk + tail|) % 7 == 0
    ensures ReadLeft(t, chunk + tail) ==
            match IndexOf(t.l, chunk)
            case Some(d) => Extend("0", [DigitChar(d)], ReadLeft(t, tail))
            case None =>
              match IndexOf(t.g, chunk)
              case Some(d) => Extend("1", [DigitChar(d)], ReadLeft(t, tail))
              case None => None
  {
    var bits := chunk + tail;
    assert bits[..7] == chunk && bits[7..] == tail;
  }

  function ExtendRight(right: string, rest: Option<string>): Option<string>
  {
    if rest.None? then None else Some(right + rest.value)
  }

  lemma {:induction false} ExtendRightNothing(rest: Option<string>, right: string)
    ensures ExtendRight("", rest) == rest
    ensures ExtendRight(right, Some("")) == Some(right)
  {
    if rest.Some? {
      assert "" + rest.value == rest.value;
    }
    assert right + "" == right;
  }

  lemma {:induction false} ExtendRightTwice(right: string, d: string, rest: Option<string>)
    ensures ExtendRight(right, ExtendRight(d, rest)) == ExtendRight(right + d, rest)
  {
    if rest.Some? {
      assert right + (d + rest.value) == (right + d) + rest.value;
    }
  }

  lemma {:induction false} ReadRightUnfold(t: Tables, chunk: string, tail: string)
    requires Shaped(t) && |chunk| == 7 && |tail| % 7 == 0
    ensures (|chunk + tail|) % 7 == 0
    ensures ReadRight(t, chunk + tail) ==
            match IndexOf(t.r, chunk)
            case Some(d) => ExtendRight([DigitChar(d)], ReadRight(t, tail))
            case None => None
  {
    var bits := chunk + tail;
    assert bits[..7] == chunk && bits[7..] == tail;
  }

  method ReadRightHalf(t: Tables, bits: string) returns (r: Option<string>)
    requires Shaped(t) && |bits| == 42
    ensures r == ReadRight(t, bits)
  {
    var right := "";
    ExtendRightNothing(ReadRight(t, bits), "");
    assert bits[7 * 0..] == bits;
    for i := 0 to 6
      invariant ReadRight(t, bits) == ExtendRight(right, ReadRight(t, bits[7 * i..]))
    {
      var chunk := bits[7 * i..7 * i + 7];
      ghost var tail := bits[7 * (i + 1)..];
      assert bits[7 * i..] == chunk + tail;
      ReadRightUnfold(t, chunk, tail);
      var d := IndexOf(t.r, chunk);
      if d.None? {
        return None;
      }
      ExtendRightTwice(right, [DigitChar(d.value)], ReadRight(t, tail));
      right := right + [DigitChar(d.value)];
    }
    assert bits[7 * 6..] == "";
    ExtendRightNothing(None, right);
    r := Some(right);
  }

  method DecodeEan13Modules(t: Tables, modules: string) returns (r: Option<string>)
    requires Shaped(t)
    ensures r == Decode(t, modules)
  {
    hide IndexOf, ReadLeft, ReadRight, CheckDigit;
    if !Framed(modules) {
      return None;
    }
    var left := ReadLeftHalf(t, modules[3..45]);
    if left.None? {
      return None;
    }
    var first := IndexOf(t.parity, left.value.0);
    if first.None? {
      return None;
    }
    var right := ReadRightHalf(t, modules[50..92]);
    if right.None? {
      return None;
    }
    ReadLeftSound(t, modules[3..45]);
    ReadRightSound(t, modules[50..92]);
    var barcode := [DigitChar(first.value)] + left.value.1 + right.value;
    var check := Ean13CheckDigit(barcode[..12]);
    r := if check.value == barcode[12] then Some(barcode) else None;
  }

  lemma {:induction false} LeftCodeReads(t: Tables, c: char, p: char, tail: string)
    requires Unambiguous(t) && IsDigit(c) && (p == '0' || p == '1') && |tail| % 7 == 0
    ensures |LeftCode(t, c, p)| == 7
    ensures ReadLeft(t, LeftCode(t, c, p) + tail) == Extend([p], [c], ReadLeft(t, tail))
  {
    var d := DigitValue(c);
    assert Clear(t, d);
    ReadLeftUnfold(t, LeftCode(t, c, p), tail);
  }

  lemma {:induction false} LeftReadsBack(t: Tables, digits: string, parity: string)
    requires Unambiguous(t)
    requires AllDigits(digits) && |digits| == |parity| && IsParity(parity)
    ensures |LeftBars(t, digits, parity)| == 7 * |digits|
    ensures ReadLeft(t, LeftBars(t, digits, parity)) == Some((parity, digits))
  {
    if digits == "" {
      assert parity == "";
    } else {
      LeftReadsBack(t, digits[1..], parity[1..]);
      LeftCodeReads(t, digits[0], parity[0], LeftBars(t, digits[1..], parity[1..]));
      assert [digits[0]] + digits[1..] == digits && [parity[0]] + parity[1..] == parity;
    }
  }

  lemma {:induction false} RightReadsBack(t: Tables, digits: string)
    requires Unambiguous(t)
    requires AllDigits(digits)
    ensures |RightBars(t, digits)| == 7 * |digits|
    ensures ReadRight(t, RightBars(t, digits)) == Some(digits)
  {
    if digits != "" {
      var d := DigitValue(digits[0]);
      assert Clear(t, d);
      RightReadsBack(t, digits[1..]);
      hide Unambiguous, Clear, ReadRight;
      ReadRightUnfold(t, t.r[d], RightBars(t, digits[1..]));
      assert [digits[0]] + digits[1..] == digits;
    }
  }

  lemma {:induction false} FrameReads(left: string, right: string)
    requires |left| == 42 && |right| == 42
    ensures var m := GUARD_SIDE + left + GUARD_CENTER + right + GUARD_SIDE;
            Framed(m) && m[3..45] == left && m[50..92] == right
  {}

  lemma {:induction false} FrameSplits(m: string)
    requires Framed(m)
    ensures m == GUARD_SIDE + m[3..45] + GUARD_CENTER + m[50..92] + GUARD_SIDE
  {
    assert m == m[0..3] + m[3..45] + m[45..50] + m[50..92] + m[92..95];
  }

  lemma {:induction false} DecodeFrame(t: Tables, left: string, right: string)
    requires Shaped(t) && |left| == 42 && |right| == 42
    requires ReadLeft(t, left).Some? && ReadRight(t, right).Some? && IndexOf(t.parity, ReadLeft(t, left).value.0).Some?
    ensures var barcode := [DigitChar(IndexOf(t.parity, ReadLeft(t, left).value.0).value)]
                         + ReadLeft(t, left).value.1 + ReadRight(t, right).value;
            Decode(t, GUARD_SIDE + left + GUARD_CENTER + right + GUARD_SIDE)
            == if Valid(barcode) then Some(barcode) else None
  {
    FrameReads(left, right);
  }

  lemma {:induction false} Halves(t: Tables, barcode: string, first: nat)
    requires Unambiguous(t) && Valid(barcode) && first == DigitValue(barcode[0])
    ensures |LeftBars(t, barcode[1..7], t.parity[first])| == 42 == |RightBars(t, barcode[7..13])|
    ensures ReadLeft(t, LeftBars(t, barcode[1..7], t.parity[first])) == Some((t.parity[first], barcode[1..7]))
    ensures ReadRight(t, RightBars(t, barcode[7..13])) == Some(barcode[7..13])
    ensures IndexOf(t.parity, t.parity[first]) == Some(first)
  {
    assert Clear(t, first);
    LeftReadsBack(t, barcode[1..7], t.parity[first]);
    RightReadsBack(t, barcode[7..13]);
  }

  lemma {:induction false} Joined(barcode: string)
    requires Valid(barcode)
    ensures [DigitChar(DigitValue(barcode[0]))] + barcode[1..7] + barcode[7..13] == barcode
  {
    assert DigitChar(DigitValue(barcode[0])) == barcode[0];
  }

  /** Every valid barcode is read back from its 95 modules. */
  lemma {:induction false} DecodeOfModules(t: Tables, barcode: string)
    requires Unambiguous(t)
    requires Valid(barcode)
    ensures |ModulesOf(t, barcode)| == EAN13_MODULES
    ensures Decode(t, ModulesOf(t, barcode)) == Some(barcode)
  {
    var first := DigitValue(barcode[0]);
    Halves(t, barcode, first);
    DecodeFrame(t, LeftBars(t, barcode[1..7], t.parity[first]), RightBars(t, barcode[7..13]));
    Joined(barcode);
  }

  lemma {:induction false} ReadLeftSound(t: Tables, bits: string)
    requires Shaped(t)
    requires |bits| % 7 == 0 && ReadLeft(t, bits).Some?
    ensures var (parity, digits) := ReadLeft(t, bits).value;
            AllDigits(digits) && IsParity(parity) && |digits| == |parity| == |bits| / 7
            && LeftBars(t, digits, parity) == bits
  {
    if bits != "" {
      ReadLeftSound(t, bits[7..]);
      var (parity, digits) := ReadLeft(t, bits).value;
      assert digits[1..] == ReadLeft(t, bits[7..]).value.1 && parity[1..] == ReadLeft(t, bits[7..]).value.0;
      assert LeftCode(t, digits[0], parity[0]) == bits[..7];
      assert bits[..7] + bits[7..] == bits;
    }
  }

  lemma {:induction false} ReadRightSound(t: Tables, bits: string)
    requires Shaped(t)
    requires |bits| % 7 == 0 && ReadRight(t, bits).Some?
    ensures var digits := ReadRight(t, bits).value;
            AllDigits(digits) && |digits| == |bits| / 7 && RightBars(t, digits) == bits
  {
    if bits != "" {
      ReadRightSound(t, bits[7..]);
      var digits := ReadRight(t, bits).value;
      assert digits[1..] == ReadRight(t, bits[7..]).value;
      assert bits[..7] + bits[7..] == bits;
    }
  }

  lemma {:induction false} Reassemble(t: Tables, first: nat, digits: string, right: string)
    requires Shaped(t) && first < 10 && AllDigits(digits) && AllDigits(right) && |digits| == |right| == 6
    requires Valid([DigitChar(first)] + digits + right)
    ensures ModulesOf(t, [DigitChar(first)] + digits + right)
         == GUARD_SIDE + LeftBars(t, digits, t.parity[first]) + GUARD_CENTER + RightBars(t, right) + GUARD_SIDE
  {
    var barcode := [DigitChar(first)] + digits + right;
    assert barcode[1..7] == digits && barcode[7..13] == right;
  }

  /** Whatever decodes is exactly what would be drawn for the decoded barcode: nothing else is accepted. */
  lemma {:induction false} ModulesOfDecoded(t: Tables, modules: string)
    requires Shaped(t)
    requires Decode(t, modules).Some?
    ensures Valid(Decode(t, modules).value) && ModulesOf(t, Decode(t, modules).value) == modules
  {
    ReadLeftSound(t, modules[3..45]);
    ReadRightSound(t, modules[50..92]);
    var (parity, digits) := ReadLeft(t, modules[3..45]).value;
    var right := ReadRight(t, modules[50..92]).value;
    FrameSplits(modules);
    Reassemble(t, IndexOf(t.parity, parity).value, digits, right);
  }

  // ---------------------------------------------------------------- scanning upside down

  lemma {:induction false} ReverseOfConcat(s: string, t: string)
    ensures Reverse(s + t) == Reverse(t) + Reverse(s)
  {}

  lemma {:induction false} LeftBarsAppend(t: Tables, digits: string, parity: string, c: char, p: char)
    requires Shaped(t)
    requires AllDigits(digits) && |digits| == |parity| && IsDigit(c)
    ensures LeftBars(t, digits + [c], parity + [p]) == LeftBars(t, digits, parity) + LeftCode(t, c, p)
  {
    var ds, ps := digits + [c], parity + [p];
    if digits != "" {
      LeftBarsAppend(t, digits[1..], parity[1..], c, p);
      assert ds[1..] == digits[1..] + [c] && ps[1..] == parity[1..] + [p];
    } else {
      assert ds[1..] == "" && ps[1..] == "";
    }
  }

  lemma {:induction false} OnesAppend(n: nat)
    ensures Ones(n) + "1" == Ones(n + 1)
  {
    if n > 0 { OnesAppend(n - 1); }
  }

  lemma {:induction false} ReverseOfDigits(digits: string)
    requires digits != ""
    ensures Reverse(digits) == Reverse(digits[1..]) + [digits[0]]
  {}

  /** The right half scanned backwards is a left half drawn with the G table only. */
  lemma {:induction false} RightHalfMirrored(t: Tables, digits: string)
    requires Unambiguous(t)
    requires AllDigits(digits)
    ensures Reverse(RightBars(t, digits)) == LeftBars(t, Reverse(digits), Ones(|digits|))
  {
    if digits != "" {
      var d := DigitValue(digits[0]);
      RightHalfMirrored(t, digits[1..]);
      ReverseOfConcat(t.r[d], RightBars(t, digits[1..]));
      LeftBarsAppend(t, Reverse(digits[1..]), Ones(|digits| - 1), digits[0], '1');
      OnesAppend(|digits| - 1);
      ReverseOfDigits(digits);
      assert Clear(t, d);
    }
  }

  lemma {:induction false} MirrorFrame(m: string)
    requires |m| == EAN13_MODULES
    ensures |Reverse(m)| == EAN13_MODULES && Reverse(m)[3..45] == Reverse(m[50..92])
  {}

  /** The mirror image of a printed barcode is always refused, whatever the barcode. */
  lemma {:induction false} MirrorRefused(t: Tables, barcode: string)
    requires Unambiguous(t)
    requires Valid(barcode)
    ensures Decode(t, Reverse(ModulesOf(t, barcode))) == None
  {
    var right := barcode[7..13];
    var left := LeftBars(t, barcode[1..7], t.parity[DigitValue(barcode[0])]);
    RightReadsBack(t, right);
    LeftReadsBack(t, barcode[1..7], t.parity[DigitValue(barcode[0])]);
    FrameReads(left, RightBars(t, right));
    MirrorFrame(ModulesOf(t, barcode));
    RightHalfMirrored(t, right);
    LeftReadsBack(t, Reverse(right), Ones(6));
  }

  /** The three results for the tables the code derives from L. */
  lemma {:induction false} StandardBarcodes(barcode: string, modules: string)
    ensures Unambiguous(Standard())
    ensures Valid(barcode) ==> Decode(Standard(), ModulesOf(Standard(), barcode)) == Some(barcode)
    ensures Valid(barcode) ==> Decode(Standard(), Reverse(ModulesOf(Standard(), barcode))) == None
    ensures Decode(Standard(), modules).Some? ==>
              Valid(Decode(Standard(), modules).value)
              && ModulesOf(Standard(), Decode(Standard(), modules).value) == modules
  {
    StandardUnambiguous();
    var t := Standard();
    if Valid(barcode) {
      DecodeOfModules(t, barcode);
      MirrorRefused(t, barcode);
    }
    if Decode(t, modules).Some? {
      ModulesOfDecoded(t, modules);
    }
  }

  // ---------------------------------------------------------------- what is printed

  /** Digit i of the barcode, and the seven modules it is drawn as: from 3 on the left, from 50 on the right. */
  function Drawn(m: string, i: nat): string
    requires |m| == 95 && 1 <= i < 13
  {
    if i < 7 then m[3 + 7 * (i - 1)..10 + 7 * (i - 1)] else m[50 + 7 * (i - 7)..57 + 7 * (i - 7)]
  }

  lemma {:induction false} LeftBarsAt(t: Tables, digits: string, parity: string, k: nat)
    requires Shaped(t) && AllDigits(digits) && |digits| == |parity| && k < |digits|
    ensures |LeftBars(t, digits, parity)| == 7 * |digits|
    ensures LeftBars(t, digits, parity)[7 * k..7 * k + 7] == LeftCode(t, digits[k], parity[k])
    decreases |digits|
  {
    var rest := LeftBars(t, digits[1..], parity[1..]);
    if |digits| > 1 {
      LeftBarsAt(t, digits[1..], parity[1..], if k > 0 then k - 1 else 0);
    } else {
      assert rest == "";
    }
    if k > 0 { assert LeftBars(t, digits, parity)[7 * k..7 * k + 7] == rest[7 * (k - 1)..7 * (k - 1) + 7]; }
  }

  lemma {:induction false} RightBarsAt(t: Tables, digits: string, k: nat)
    requires Shaped(t) && AllDigits(digits) && k < |digits|
    ensures |RightBars(t, digits)| == 7 * |digits|
    ensures RightBars(t, digits)[7 * k..7 * k + 7] == t.r[DigitValue(digits[k])]
    decreases |digits|
  {
    var rest := RightBars(t, digits[1..]);
    if |digits| > 1 {
      RightBarsAt(t, digits[1..], if k > 0 then k - 1 else 0);
    } else {
      assert rest == "";
    }
    if k > 0 { assert RightBars(t, digits)[7 * k..7 * k + 7] == rest[7 * (k - 1)..7 * (k - 1) + 7]; }
  }

  lemma {:induction false} RNumbers(d: nat)
    requires d < 10
    ensures |R_CODES()[d]| == 7
    ensures CodeNumber(R_CODES()[d]) == Pick(d, 114, 102, 108, 66, 92, 78, 80, 68, 72, 116)
  {
    BinaryL(d);
    var r, l := R_CODES()[d], L_CODES[d];
    assert Bit(r[0]) == 1 - Bit(l[0]) && Bit(r[1]) == 1 - Bit(l[1]) && Bit(r[2]) == 1 - Bit(l[2])
        && Bit(r[3]) == 1 - Bit(l[3]) && Bit(r[4]) == 1 - Bit(l[4]) && Bit(r[5]) == 1 - Bit(l[5])
        && Bit(r[6]) == 1 - Bit(l[6]);
  }

  lemma {:induction false} ModulesCut(t: Tables, barcode: string)
    requires Shaped(t) && Valid(barcode)
    ensures var m := ModulesOf(t, barcode);
      && |m| == 95 && m[..3] == "101" && m[45..50] == "01010" && m[92..] == "101"
      && m[3..45] == LeftBars(t, barcode[1..7], t.parity[barcode[0] as int - 48])
      && m[50..92] == RightBars(t, barcode[7..13])
  {
    var left, right := LeftBars(t, barcode[1..7], t.parity[DigitValue(barcode[0])]), RightBars(t, barcode[7..13]);
    LeftBarsAt(t, barcode[1..7], t.parity[DigitValue(barcode[0])], 0);
    RightBarsAt(t, barcode[7..13], 0);
    hide LeftBars, RightBars;
    assert ModulesOf(t, barcode) == "101" + left + "01010" + right + "101";
  }

  /** Guards at both ends and in the middle, and between them every digit in the code of its place. */
  lemma {:induction false} PrintedIs(barcode: string, i: nat)
    requires Valid(barcode) && 1 <= i < 13
    ensures Shaped(Standard())
    ensures var m := ModulesOf(Standard(), barcode); var d := barcode[i] as int - 48; var first := barcode[0] as int - 48;
      && |m| == 95 && m[..3] == "101" && m[45..50] == "01010" && m[92..] == "101" && 0 <= d < 10 && 0 <= first < 10
      && CodeNumber(Drawn(m, i)) ==
           if i >= 7 then Pick(d, 114, 102, 108, 66, 92, 78, 80, 68, 72, 116)
           else if PARITY[first][i - 1] == '1' then Pick(d, 39, 51, 27, 33, 29, 57, 5, 17, 9, 23)
           else Pick(d, 13, 25, 19, 61, 35, 49, 47, 59, 55, 11)
  {
    StandardUnambiguous();
    var t, first, d := Standard(), DigitValue(barcode[0]), DigitValue(barcode[i]);
    ModulesCut(t, barcode);
    ParityNumbers(first);
    LNumbers(d);
    GNumbers(d);
    RNumbers(d);
    DrawnIs(t, barcode, i);
    hide LeftBars, RightBars, ModulesOf, CodeNumber, Pick, Valid, Shaped, Unambiguous, Clear, Drawn;
  }

  lemma {:induction false} DrawnIs(t: Tables, barcode: string, i: nat)
    requires Shaped(t) && Valid(barcode) && 1 <= i < 13
    ensures |ModulesOf(t, barcode)| == 95 && |t.parity[DigitValue(barcode[0])]| == 6
    ensures Drawn(ModulesOf(t, barcode), i) ==
      if i < 7 then LeftCode(t, barcode[i], t.parity[DigitValue(barcode[0])][i - 1]) else t.r[DigitValue(barcode[i])]
  {
    ModulesCut(t, barcode);
    var parity := t.parity[DigitValue(barcode[0])];
    hide LeftBars, RightBars, ModulesOf, LeftCode;
    var m := ModulesOf(t, barcode);
    if i < 7 {
      LeftBarsAt(t, barcode[1..7], parity, i - 1);
      assert Drawn(m, i) == m[3..45][7 * (i - 1)..7 * (i - 1) + 7] && barcode[1..7][i - 1] == barcode[i];
    } else {
      RightBarsAt(t, barcode[7..13], i - 7);
      assert Drawn(m, i) == m[50..92][7 * (i - 7)..7 * (i - 7) + 7] && barcode[7..13][i - 7] == barcode[i];
    }
  }
}
