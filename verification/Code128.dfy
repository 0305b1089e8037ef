// Code 128: symbols, checksum, bars, and a reader of those bars.
module Code128 {
  import opened Common
  import opened Code128Table
  import opened Decimals

  datatype CodeSet = B | C
  datatype Failure = NotEncodable

  const START_B: nat := 104
  const START_C: nat := 105
  const CODE_B: nat := 100
  const CODE_C: nat := 99
  const MAX_LENGTH: nat := 48

  predicate Encodable(value: string)
  {
    0 < |value| <= MAX_LENGTH && Printable(value)
  }

  // ---------------------------------------------------------------- choosing symbols

  function DigitRun(value: string, from: nat): (n: nat)
    requires from <= |value|
    ensures from + n <= |value|
    ensures forall k :: from <= k < from + n ==> IsDigit(value[k])
    ensures from + n == |value| || !IsDigit(value[from + n])
    decreases |value| - from
  {
    if from < |value| && IsDigit(value[from]) then 1 + DigitRun(value, from + 1) else 0
  }

  function PairSymbols(value: string, from: nat, pairs: nat): (r: seq<nat>)
    requires from + 2 * pairs <= |value|
    requires forall k :: from <= k < from + 2 * pairs ==> IsDigit(value[k])
    ensures |r| == pairs
    decreases pairs
  {
    if pairs == 0 then []
    else [10 * DigitValue(value[from]) + DigitValue(value[from + 1])] + PairSymbols(value, from + 2, pairs - 1)
  }

  predicate PrefersC(value: string, i: nat, current: Option<CodeSet>)
    requires i < |value|
  {
    var run := DigitRun(value, i);
    run >= (if i == 0 || i + run == |value| then 4 else 6) || (current == Some(C) && run >= 2)
  }

  function SwitchTo(target: CodeSet, current: Option<CodeSet>): seq<nat>
  {
    if current == Some(target) then []
    else if current.None? then [if target.C? then START_C else START_B]
    else [if target.C? then CODE_C else CODE_B]
  }

  predicate Printable(value: string)
  {
    forall k :: 0 <= k < |value| ==> ' ' <= value[k] <= '~'
  }

  /** One turn of the greedy loop: the symbols it emits, where it stops, and the set it leaves in force. */
  function Turn(value: string, i: nat, current: Option<CodeSet>): (r: (seq<nat>, nat, CodeSet))
    requires i < |value| && Printable(value)
    ensures i < r.1 <= |value|
  {
    if PrefersC(value, i, current) then
      var pairs := DigitRun(value, i) / 2;
      (SwitchTo(C, current) + PairSymbols(value, i, pairs), i + 2 * pairs, C)
    else
      (SwitchTo(B, current) + [value[i] as nat - 32], i + 1, B)
  }

  /** What the greedy loop still has to emit when it stands at position i in code set `current`. */
  function SymbolsFrom(value: string, i: nat, current: Option<CodeSet>): seq<nat>
    requires i <= |value| && Printable(value)
    decreases |value| - i
  {
    if i == |value| then []
    else
      var (out, next, now) := Turn(value, i, current);
      out + SymbolsFrom(value, next, Some(now))
  }

  function Symbols(value: string): seq<nat>
    requires Encodable(value)
  {
    SymbolsFrom(value, 0, None)
  }

  method FindDigitRun(value: string, from: nat) returns (n: nat)
    requires from <= |value|
    ensures n == DigitRun(value, from)
  {
    n := 0;
    while from + n < |value| && IsDigit(value[from + n])
      invariant from + n <= |value|
      invariant DigitRun(value, from) == n + DigitRun(value, from + n)
    {
      n := n + 1;
    }
  }

  method AppendPairs(out: seq<nat>, value: string, i: nat, pairs: nat) returns (r: seq<nat>)
    requires i + 2 * pairs <= |value|
    requires forall k :: i <= k < i + 2 * pairs ==> IsDigit(value[k])
    ensures r == out + PairSymbols(value, i, pairs)
  {
    r := out;
    var p := 0;
    while p < pairs
      invariant p <= pairs
      invariant r + PairSymbols(value, i + 2 * p, pairs - p) == out + PairSymbols(value, i, pairs)
    {
      r := r + [10 * DigitValue(value[i + 2 * p]) + DigitValue(value[i + 2 * p + 1])];
      p := p + 1;
    }
  }

  method TakeTurn(out: seq<nat>, value: string, i: nat, current: Option<CodeSet>)
    returns (r: seq<nat>, next: nat, now: Option<CodeSet>)
    requires i < |value| && Printable(value)
    ensures var turn := Turn(value, i, current); r == out + turn.0 && next == turn.1 && now == Some(turn.2)
  {
    r, next, now := out, i, current;
    var run := FindDigitRun(value, i);
    var atEdge := i == 0 || i + run == |value|;
    if run >= (if atEdge then 4 else 6) || (now == Some(C) && run >= 2) {
      if now != Some(C) {
        r := r + [if now.None? then START_C else CODE_C];
        now := Some(C);
      }
      var pairs := run / 2;
      r := AppendPairs(r, value, i, pairs);
      next := i + pairs * 2;
    } else {
      if now != Some(B) {
        r := r + [if now.None? then START_B else CODE_B];
        now := Some(B);
      }
      r := r + [value[i] as nat - 32];
      next := i + 1;
    }
  }

  method SymbolValues(value: string) returns (out: seq<nat>)
    requires Encodable(value)
    ensures out == Symbols(value)
  {
    out := [];
    var current: Option<CodeSet> := None;
    var i := 0;
    while i < |value|
      invariant i <= |value|
      invariant out + SymbolsFrom(value, i, current) == Symbols(value)
    {
      ghost var turn := Turn(value, i, current);
      ghost var rest := SymbolsFrom(value, turn.1, Some(turn.2));
      assert out + (turn.0 + rest) == (out + turn.0) + rest;
      out, i, current := TakeTurn(out, value, i, current);
    }
  }

  // ---------------------------------------------------------------- reading symbols back

  /** A reader that tracks the code set: 99 is a digit pair in C and a switch in B, 100 the other way round. */
  function ReadText(symbols: seq<nat>, current: Option<CodeSet>): Option<string>
  {
    if symbols == [] then (if current.None? then None else Some(""))
    else
      var v, rest := symbols[0], symbols[1..];
      match current
      case None =>
        if v == START_B then ReadText(rest, Some(B)) else if v == START_C then ReadText(rest, Some(C)) else None
      case Some(C) =>
        if v == CODE_B then ReadText(rest, Some(B))
        else if v < 100 then Prepend([DigitChar(v / 10), DigitChar(v % 10)], ReadText(rest, Some(C)))
        else None
      case Some(B) =>
        if v == CODE_C then ReadText(rest, Some(C))
        else if v <= 94 then Prepend([(v + 32) as char], ReadText(rest, Some(B)))
        else None
  }

  function Prepend(s: string, tail: Option<string>): Option<string>
  {
    if tail.None? then None else Some(s + tail.value)
  }

  lemma {:induction false} ReadPairs(value: string, from: nat, pairs: nat, rest: seq<nat>, tail: string)
    requires from + 2 * pairs <= |value|
    requires forall k :: from <= k < from + 2 * pairs ==> IsDigit(value[k])
    requires ReadText(rest, Some(C)) == Some(tail)
    ensures ReadText(PairSymbols(value, from, pairs) + rest, Some(C)) == Some(value[from..from + 2 * pairs] + tail)
    decreases pairs
  {
    if pairs == 0 {
      assert PairSymbols(value, from, 0) + rest == rest;
      assert value[from..from + 2 * pairs] + tail == tail;
    } else {
      ReadPairs(value, from + 2, pairs - 1, rest, tail);
      var less := PairSymbols(value, from + 2, pairs - 1) + rest;
      var v := 10 * DigitValue(value[from]) + DigitValue(value[from + 1]);
      assert PairSymbols(value, from, pairs) + rest == [v] + less;
      ReadPair(value[from], value[from + 1], less);
      SliceTwo(value, from, from + 2 * pairs, tail);
    }
  }

  lemma {:induction false} SliceTwo(value: string, from: nat, to: nat, tail: string)
    requires from + 2 <= to <= |value|
    ensures [value[from], value[from + 1]] + (value[from + 2..to] + tail) == value[from..to] + tail
  {}

  lemma {:induction false} ReadPair(c: char, d: char, rest: seq<nat>)
    requires IsDigit(c) && IsDigit(d)
    ensures ReadText([10 * DigitValue(c) + DigitValue(d)] + rest, Some(C))
         == Prepend([c, d], ReadText(rest, Some(C)))
  {
    var v := 10 * DigitValue(c) + DigitValue(d);
    assert ([v] + rest)[1..] == rest;
    assert v / 10 == DigitValue(c) && v % 10 == DigitValue(d);
  }

  lemma {:induction false} ReadSwitch(target: CodeSet, current: Option<CodeSet>, rest: seq<nat>)
    ensures ReadText(SwitchTo(target, current) + rest, current) == ReadText(rest, Some(target))
  {
    var all := SwitchTo(target, current) + rest;
    if current == Some(target) {
      assert all == rest;
    } else {
      assert all[1..] == rest;
    }
  }

  lemma {:induction false} ReadStepC(value: string, i: nat, current: Option<CodeSet>, pairs: nat, rest: seq<nat>)
    requires i + 2 * pairs <= |value| && (forall k :: i <= k < i + 2 * pairs ==> IsDigit(value[k]))
    requires ReadText(rest, Some(C)) == Some(value[i + 2 * pairs..])
    ensures ReadText(SwitchTo(C, current) + PairSymbols(value, i, pairs) + rest, current) == Some(value[i..])
  {
    ReadPairs(value, i, pairs, rest, value[i + 2 * pairs..]);
    ReadSwitch(C, current, PairSymbols(value, i, pairs) + rest);
    assert SwitchTo(C, current) + PairSymbols(value, i, pairs) + rest
        == SwitchTo(C, current) + (PairSymbols(value, i, pairs) + rest);
    assert value[i..i + 2 * pairs] + value[i + 2 * pairs..] == value[i..];
  }

  lemma {:induction false} ReadStepB(value: string, i: nat, current: Option<CodeSet>, rest: seq<nat>)
    requires i < |value| && ' ' <= value[i] <= '~'
    requires ReadText(rest, Some(B)) == Some(value[i + 1..])
    ensures ReadText(SwitchTo(B, current) + [value[i] as nat - 32] + rest, current) == Some(value[i..])
  {
    var one := [value[i] as nat - 32] + rest;
    assert one[1..] == rest;
    ReadSwitch(B, current, one);
    assert SwitchTo(B, current) + [value[i] as nat - 32] + rest == SwitchTo(B, current) + one;
    assert [value[i]] + value[i + 1..] == value[i..];
  }

  lemma {:induction false} ReadTurn(value: string, i: nat, current: Option<CodeSet>, rest: seq<nat>)
    requires i < |value| && Printable(value)
    requires var turn := Turn(value, i, current); ReadText(rest, Some(turn.2)) == Some(value[turn.1..])
    ensures ReadText(Turn(value, i, current).0 + rest, current) == Some(value[i..])
  {
    if PrefersC(value, i, current) {
      ReadStepC(value, i, current, DigitRun(value, i) / 2, rest);
    } else {
      ReadStepB(value, i, current, rest);
    }
  }

  /** The partner of the greedy choice: from any position and set, the reader recovers the rest of the text. */
  lemma {:induction false} ReadSymbolsFrom(value: string, i: nat, current: Option<CodeSet>)
    requires i <= |value| && (i < |value| || current.Some?) && Printable(value)
    ensures ReadText(SymbolsFrom(value, i, current), current) == Some(value[i..])
    decreases |value| - i
  {
    if i == |value| {
      assert value[i..] == "";
    } else {
      var turn := Turn(value, i, current);
      ReadSymbolsFrom(value, turn.1, Some(turn.2));
      ReadTurn(value, i, current, SymbolsFrom(value, turn.1, Some(turn.2)));
    }
  }

  lemma {:induction false} TurnShape(value: string, i: nat, current: Option<CodeSet>)
    requires i < |value| && Printable(value)
    ensures var turn := Turn(value, i, current);
      && 1 <= |turn.0|
      && |turn.0| + (if turn.2.B? then 0 else 1) <= turn.1 - i + (if current == Some(B) then 0 else 1)
      && (current.None? ==> 2 <= |turn.0| && turn.0[0] == (if turn.2.B? then START_B else START_C))
      && forall k :: (if current.None? then 1 else 0) <= k < |turn.0| ==> turn.0[k] <= CODE_B
  {
    if PrefersC(value, i, current) {
      PairBound(value, i, DigitRun(value, i) / 2);
    }
  }

  /** Entering C costs at most what its pairs save, so one symbol more than the length is enough. */
  lemma {:induction false} LengthFrom(value: string, i: nat, current: Option<CodeSet>)
    requires i <= |value| && Printable(value)
    ensures var s := SymbolsFrom(value, i, current);
      && |s| <= |value| - i + (if current == Some(B) then 0 else 1)
      && (forall k :: (if current.None? then 1 else 0) <= k < |s| ==> s[k] <= CODE_B)
      && (current.None? && i < |value| ==> 2 <= |s| && (s[0] == START_B || s[0] == START_C))
    decreases |value| - i
  {
    if i < |value| {
      var turn := Turn(value, i, current);
      TurnShape(value, i, current);
      LengthFrom(value, turn.1, Some(turn.2));
    }
  }

  lemma {:induction false} PairBound(value: string, from: nat, pairs: nat)
    requires from + 2 * pairs <= |value|
    requires forall k :: from <= k < from + 2 * pairs ==> IsDigit(value[k])
    ensures forall k :: 0 <= k < pairs ==> PairSymbols(value, from, pairs)[k] <= 99
    decreases pairs
  {
    if pairs > 0 { PairBound(value, from + 2, pairs - 1); }
  }

  /** One symbol more than the text at most; a start symbol first, then only values 0..100. */
  lemma {:induction false} SymbolsShape(value: string)
    requires Encodable(value)
    ensures 2 <= |Symbols(value)| <= |value| + 1 <= MAX_LENGTH + 1
    ensures Symbols(value)[0] == START_B || Symbols(value)[0] == START_C
    ensures forall k :: 1 <= k < |Symbols(value)| ==> Symbols(value)[k] <= CODE_B
  {
    LengthFrom(value, 0, None);
  }

  // ---------------------------------------------------------------- checksum

  function Weight(k: nat): nat { if k == 0 then 1 else k }

  function WeightedSum(s: seq<nat>): nat
  {
    if s == [] then 0 else WeightedSum(s[..|s| - 1]) + s[|s| - 1] * Weight(|s| - 1)
  }

  function Check(s: seq<nat>): (c: nat)
    ensures c < 103
  {
    WeightedSum(s) % 103
  }

  lemma {:induction false} SumAfterUpdate(s: seq<nat>, k: nat, x: nat)
    requires k < |s|
    ensures WeightedSum(s[k := x]) == WeightedSum(s) + x * Weight(k) - s[k] * Weight(k)
  {
    var t := s[k := x];
    if k == |s| - 1 {
      assert t[..|t| - 1] == s[..|s| - 1];
    } else {
      SumAfterUpdate(s[..|s| - 1], k, x);
      assert t[..|t| - 1] == s[..|s| - 1][k := x];
    }
  }

  /** 103 has no divisor below it, so it divides a product only through the larger factor. */
  lemma {:induction false} PrimeDividesFactor(k: nat, d: int)
    requires 0 < k < 103 && (k * d) % 103 == 0
    ensures d % 103 == 0
    decreases k
  {
    if k > 1 {
      RemainderTimes(k, d, (k * d) / 103);
      PrimeDividesFactor(103 % k, d);
    }
  }

  lemma {:induction false} RemainderTimes(k: nat, d: int, m: int)
    requires 1 < k < 103 && k * d == 103 * m
    ensures (103 % k * d) % 103 == 0
  {
    var q, r := 103 / k, 103 % k;
    assert q * (103 * m) == 103 * (q * m);
    assert r * d == 103 * (d - q * m);
  }

  lemma {:induction false} DifferenceModulo(a: int, b: int)
    ensures (a - b) % 103 == 0 <==> a % 103 == b % 103
  {}

  lemma {:induction false} MultipleModulo(sum: int, k: nat, d: int)
    requires 0 < k < 103
    ensures (sum + k * d) % 103 == sum % 103 <==> d % 103 == 0
  {
    DifferenceModulo(sum + k * d, sum);
    if (k * d) % 103 == 0 {
      PrimeDividesFactor(k, d);
    }
    if d % 103 == 0 {
      var m := d / 103;
      assert k * d == 103 * (k * m) by { assert d == 103 * m; }
    }
  }

  /** Whatever replaces one symbol, the start included, the check symbol changes unless the values agree modulo 103. */
  lemma {:induction false} SubstitutionDetected(s: seq<nat>, k: nat, x: nat)
    requires k < |s| <= 103
    ensures Check(s[k := x]) == Check(s) <==> x % 103 == s[k] % 103
  {
    var w := if k == 0 then 1 else k;
    SumAfterUpdate(s, k, x);
    ProductOfDifference(x, s[k], w);
    MultipleModulo(WeightedSum(s), w, x - s[k]);
    DifferenceModulo(x, s[k]);
  }

  function Sum(data: seq<nat>): nat
  {
    if data == [] then 0 else data[0] + Sum(data[1..])
  }

  /** Running totals from the right, added up: the last symbol is in all of them, the first in one. */
  function TailSums(data: seq<nat>): nat
  {
    if data == [] then 0 else Sum(data) + TailSums(data[1..])
  }

  lemma {:induction false} SumsOfLonger(data: seq<nat>, x: nat)
    ensures Sum(data + [x]) == Sum(data) + x
    ensures TailSums(data + [x]) == TailSums(data) + x * (|data| + 1)
  {
    if data == [] {
      assert [x][1..] == [];
    } else {
      SumsOfLonger(data[1..], x);
      assert (data + [x])[1..] == data[1..] + [x];
      ProductOfDifference(|data| + 1, |data|, x);
    }
  }

  /** The weighted sum is the start symbol and the running totals of the data. */
  lemma {:induction false} WeightedSumIsTailSums(s: seq<nat>)
    requires s != []
    ensures WeightedSum(s) == s[0] + TailSums(s[1..])
  {
    var n := |s| - 1;
    if n == 0 {
      assert s[..0] == [] && s[1..] == [];
    } else {
      WeightedSumIsTailSums(s[..n]);
      SumsOfLonger(s[1..n], s[n]);
      assert s[..n][1..] == s[1..n] && s[1..] == s[1..n] + [s[n]];
    }
  }

  lemma {:induction false} ProductOfDifference(x: int, y: int, k: nat)
    ensures k * (x - y) == x * k - y * k
  {}

  function Swapped(s: seq<nat>, k: nat): seq<nat>
    requires k + 1 < |s|
  {
    s[k := s[k + 1]][k + 1 := s[k]]
  }

  lemma {:induction false} SwapArithmetic(before: int, between: int, after: int, a: int, b: int, k: nat)
    requires between == before + b * k - a * k
    requires after == between + a * (k + 1) - b * (k + 1)
    ensures after + b == before + a
  {}

  lemma {:induction false} SumAfterSwap(s: seq<nat>, k: nat)
    requires 1 <= k && k + 1 < |s|
    ensures WeightedSum(Swapped(s, k)) + s[k + 1] == WeightedSum(s) + s[k]
  {
    var t := s[k := s[k + 1]];
    SumAfterUpdate(s, k, s[k + 1]);
    SumAfterUpdate(t, k + 1, s[k]);
    assert Weight(k) == k && Weight(k + 1) == k + 1 && t[k + 1] == s[k + 1];
    SwapArithmetic(WeightedSum(s), WeightedSum(t), WeightedSum(Swapped(s, k)), s[k], s[k + 1], k);
  }

  /** Swapping two neighbouring data symbols changes the check symbol unless they agree modulo 103. */
  lemma {:induction false} SwapDetected(s: seq<nat>, k: nat)
    requires 1 <= k && k + 1 < |s| <= 103
    ensures Check(Swapped(s, k)) == Check(s) <==> s[k] % 103 == s[k + 1] % 103
  {
    SumAfterSwap(s, k);
    DifferenceModulo(WeightedSum(Swapped(s, k)), WeightedSum(s));
    DifferenceModulo(s[k], s[k + 1]);
  }

  // ---------------------------------------------------------------- bars

  function Repeat(c: char, n: nat): (s: string)
    ensures |s| == n && forall k :: 0 <= k < n ==> s[k] == c
  {
    if n == 0 then "" else [c] + Repeat(c, n - 1)
  }

  function Ink(dark: bool): char { if dark then '1' else '0' }

  function Bars(widths: seq<nat>, dark: bool): string
  {
    if widths == [] then "" else Repeat(Ink(dark), widths[0]) + Bars(widths[1..], !dark)
  }

  function WidthSeq(w: Widths): seq<nat> { [w.b0, w.s0, w.b1, w.s1, w.b2, w.s2] }

  const STOP_WIDTHS: seq<nat> := [2, 3, 3, 1, 1, 1, 2]

  function SymbolBars(v: nat): string
    requires v <= LAST_SYMBOL
  {
    Bars(WidthSeq(Pattern(v)), true)
  }

  predicate Drawable(symbols: seq<nat>)
  {
    forall k :: 0 <= k < |symbols| ==> symbols[k] <= LAST_SYMBOL
  }

  function AllBars(symbols: seq<nat>): string
    requires Drawable(symbols)
  {
    if symbols == [] then Bars(STOP_WIDTHS, true) else SymbolBars(symbols[0]) + AllBars(symbols[1..])
  }

  function ModulesOf(value: string): string
    requires Encodable(value)
  {
    SymbolsShape(value);
    var s := Symbols(value);
    AllBars(s + [Check(s)])
  }

  method DrawWidths(widths: seq<nat>) returns (bits: string)
    ensures bits == Bars(widths, true)
  {
    bits := "";
    var k := 0;
    while k < |widths|
      invariant k <= |widths|
      invariant bits + Bars(widths[k..], k % 2 == 0) == Bars(widths, true)
    {
      assert widths[k..][1..] == widths[k + 1..];
      Assoc(bits, Repeat(if k % 2 == 0 then '1' else '0', widths[k]), Bars(widths[k + 1..], (k + 1) % 2 == 0));
      bits := bits + Repeat(if k % 2 == 0 then '1' else '0', widths[k]);
      k := k + 1;
    }
  }

  method WeightedSumOf(symbols: seq<nat>) returns (sum: nat)
    ensures sum == WeightedSum(symbols)
  {
    sum := 0;
    for idx := 0 to |symbols|
      invariant sum == WeightedSum(symbols[..idx])
    {
      assert symbols[..idx + 1][..idx] == symbols[..idx];
      sum := sum + symbols[idx] * (if idx == 0 then 1 else idx);
    }
    assert symbols[..|symbols|] == symbols;
  }

  method DrawSymbols(symbols: seq<nat>) returns (bits: string)
    requires Drawable(symbols)
    ensures bits == AllBars(symbols)
  {
    hide Bars;
    bits := "";
    for idx := 0 to |symbols|
      invariant bits + AllBars(symbols[idx..]) == AllBars(symbols)
    {
      assert symbols[idx..][1..] == symbols[idx + 1..];
      var drawn := DrawWidths(WidthSeq(Pattern(symbols[idx])));
      Assoc(bits, drawn, AllBars(symbols[idx + 1..]));
      bits := bits + drawn;
    }
    var stop := DrawWidths(STOP_WIDTHS);
    bits := bits + stop;
  }

  /** The printed modules, without quiet zones, or the refusal of a text that has no code. */
  method Modules(value: string) returns (r: Result<string, Failure>)
    ensures r == if Encodable(value) then Ok(ModulesOf(value)) else Err(NotEncodable)
  {
    if !Encodable(value) {
      return Err(NotEncodable);
    }
    SymbolsShape(value);
    var symbols := SymbolValues(value);
    var sum := WeightedSumOf(symbols);
    var bits := DrawSymbols(symbols + [sum % 103]);
    r := Ok(bits);
  }

  // ---------------------------------------------------------------- reading bars back

  function Leading(bits: string, c: char): (n: nat)
    ensures n <= |bits|
  {
    if bits != "" && bits[0] == c then 1 + Leading(bits[1..], c) else 0
  }

  /** The lengths of the alternating runs of a module string that starts with `dark`. */
  function RunLengths(bits: string, dark: bool): seq<nat>
    decreases |bits|
  {
    var n := Leading(bits, Ink(dark));
    if n == 0 then [] else [n] + RunLengths(bits[n..], !dark)
  }

  lemma {:induction false} LeadingOfRepeat(c: char, n: nat, rest: string)
    requires rest == "" || rest[0] != c
    ensures Leading(Repeat(c, n) + rest, c) == n
  {
    if n == 0 {
      assert Repeat(c, n) + rest == rest;
    } else {
      LeadingOfRepeat(c, n - 1, rest);
      assert (Repeat(c, n) + rest)[1..] == Repeat(c, n - 1) + rest;
    }
  }

  lemma {:induction false} BarsReadBack(widths: seq<nat>, dark: bool)
    requires forall k :: 0 <= k < |widths| ==> widths[k] > 0
    ensures RunLengths(Bars(widths, dark), dark) == widths
    ensures widths != [] ==> Bars(widths, dark) != "" && Bars(widths, dark)[0] == Ink(dark)
  {
    if widths != [] {
      var rest := Bars(widths[1..], !dark);
      BarsReadBack(widths[1..], !dark);
      LeadingOfRepeat(Ink(dark), widths[0], rest);
      assert Bars(widths, dark)[widths[0]..] == rest;
      assert [widths[0]] + widths[1..] == widths;
    } else {
      assert Bars(widths, dark) == "";
    }
  }

  function FindSymbol(widths: seq<nat>, from: nat): (r: Option<nat>)
    requires from <= LAST_SYMBOL + 1
    ensures r.Some? ==> from <= r.value <= LAST_SYMBOL && WidthSeq(Pattern(r.value)) == widths
    ensures r.None? ==> forall v :: from <= v <= LAST_SYMBOL ==> WidthSeq(Pattern(v)) != widths
    decreases LAST_SYMBOL + 1 - from
  {
    if from > LAST_SYMBOL then None
    else if WidthSeq(Pattern(from)) == widths then Some(from)
    else FindSymbol(widths, from + 1)
  }

  /** Eleven modules to a symbol, thirteen for the stop that must end the string. */
  function ReadSymbols(bits: string): Option<seq<nat>>
  {
    if |bits| < 13 then None
    else if |bits| == 13 then (if RunLengths(bits, true) == STOP_WIDTHS then Some([]) else None)
    else
      var v := FindSymbol(RunLengths(bits[..11], true), 0);
      if v.None? then None
      else
        var rest := ReadSymbols(bits[11..]);
        if rest.None? then None else Some([v.value] + rest.value)
  }

  function ReadChecked(all: seq<nat>): Option<string>
  {
    if |all| < 2 || Check(all[..|all| - 1]) != all[|all| - 1] then None
    else ReadText(all[..|all| - 1], None)
  }

  function ReadModules(bits: string): Option<string>
  {
    var all := ReadSymbols(bits);
    if all.None? then None else ReadChecked(all.value)
  }

  lemma {:induction false} SymbolBarsRead(v: nat)
    requires v <= LAST_SYMBOL
    ensures |SymbolBars(v)| == 11 && FindSymbol(RunLengths(SymbolBars(v), true), 0) == Some(v)
  {
    PatternsElevenModules(v);
    var w := WidthSeq(Pattern(v));
    BarsReadBack(w, true);
    BarsLength(w, true);
    assert Total(w) == 11 by { SumOfSix(w); }
    var r := FindSymbol(w, 0);
    assert r.Some?;
    assert Pattern(r.value) == Pattern(v) by {
      var p, q := Pattern(r.value), Pattern(v);
      assert WidthSeq(p)[0] == WidthSeq(q)[0] && WidthSeq(p)[1] == WidthSeq(q)[1] && WidthSeq(p)[2] == WidthSeq(q)[2]
          && WidthSeq(p)[3] == WidthSeq(q)[3] && WidthSeq(p)[4] == WidthSeq(q)[4] && WidthSeq(p)[5] == WidthSeq(q)[5];
    }
    if r.value <= v { PatternsDistinct(r.value, v); } else { PatternsDistinct(v, r.value); }
  }

  function Total(widths: seq<nat>): nat
  {
    if widths == [] then 0 else widths[0] + Total(widths[1..])
  }

  lemma {:induction false} SumOfSix(w: seq<nat>)
    requires |w| == 6
    ensures Total(w) == w[0] + w[1] + w[2] + w[3] + w[4] + w[5]
  {
    assert Total(w) == w[0] + Total(w[1..]);
    assert Total(w[1..]) == w[1] + Total(w[1..][1..]) && w[1..][1..] == w[2..];
    assert Total(w[2..]) == w[2] + Total(w[2..][1..]) && w[2..][1..] == w[3..];
    assert Total(w[3..]) == w[3] + Total(w[3..][1..]) && w[3..][1..] == w[4..];
    assert Total(w[4..]) == w[4] + Total(w[4..][1..]) && w[4..][1..] == w[5..];
    assert Total(w[5..]) == w[5] + Total(w[5..][1..]) && w[5..][1..] == [];
  }

  lemma {:induction false} BarsLength(widths: seq<nat>, dark: bool)
    ensures |Bars(widths, dark)| == Total(widths)
  {
    if widths != [] { BarsLength(widths[1..], !dark); }
  }

  lemma {:induction false} AllBarsRead(symbols: seq<nat>)
    requires Drawable(symbols)
    ensures |AllBars(symbols)| == 11 * |symbols| + 13
    ensures ReadSymbols(AllBars(symbols)) == Some(symbols)
  {
    if symbols == [] {
      BarsReadBack(STOP_WIDTHS, true);
      BarsLength(STOP_WIDTHS, true);
      assert STOP_WIDTHS[..6] + [2] == STOP_WIDTHS;
      assert Total(STOP_WIDTHS) == 13 by {
        assert STOP_WIDTHS[0] == 2;
        SumOfSix(STOP_WIDTHS[1..]);
      }
    } else {
      var bits, rest := AllBars(symbols), AllBars(symbols[1..]);
      SymbolBarsRead(symbols[0]);
      AllBarsRead(symbols[1..]);
      assert bits[..11] == SymbolBars(symbols[0]) && bits[11..] == rest;
      assert [symbols[0]] + symbols[1..] == symbols;
    }
  }

  /** Every encodable text is read back, unchanged, from the modules printed for it. */
  lemma {:induction false} ModulesReadBack(value: string)
    requires Encodable(value)
    ensures |ModulesOf(value)| == 11 * (|Symbols(value)| + 1) + 13
    ensures ReadModules(ModulesOf(value)) == Some(value)
  {
    SymbolsShape(value);
    var s := Symbols(value);
    var all := s + [Check(s)];
    AllBarsRead(all);
    assert all[..|all| - 1] == s;
    ReadSymbolsFrom(value, 0, None);
    assert value[0..] == value;
  }

  /** Two different texts never share a bar pattern. */
  lemma {:induction false} ModulesInjective(v: string, w: string)
    requires Encodable(v) && Encodable(w) && ModulesOf(v) == ModulesOf(w)
    ensures v == w
  {
    ModulesReadBack(v);
    ModulesReadBack(w);
  }

  lemma {:induction false} WrongCheckRefused(data: seq<nat>, check: nat)
    requires data != [] && Drawable(data + [check]) && Check(data) != check
    ensures ReadModules(AllBars(data + [check])) == None
  {
    var all := data + [check];
    AllBarsRead(all);
    assert all[..|all| - 1] == data;
  }

  /** A symbol that can stand at place k: a start first, data after it. */
  predicate Stands(k: nat, x: nat) { if k == 0 then x == 104 || x == 105 else x < 103 }

  lemma {:induction false} SubstituteKeepsValues(s: seq<nat>, k: nat, x: nat)
    requires k < |s| && Stands(k, x) && forall i :: 0 <= i < |s| ==> Stands(i, s[i])
    ensures Drawable(s[k := x]) && (x % 103 == s[k] % 103 <==> x == s[k])
  {
    assert Stands(k, s[k]);
  }

  lemma {:induction false} SymbolValuesShape(value: string)
    requires Encodable(value)
    ensures var s := Symbols(value);
      2 <= |s| <= 49 && (forall i :: 0 <= i < |s| ==> Stands(i, s[i])) && Check(s) < 103
  {
    hide Symbols, Check;
    SymbolsShape(value);
  }

  lemma {:induction false} AppendDrawable(s: seq<nat>, check: nat)
    requires Drawable(s) && check < 103
    ensures Drawable(s + [check])
  {}

  /** A printed label with one symbol misread is refused, a start symbol misread as the other one included. */
  lemma {:induction false} MisreadSymbolRefused(value: string, k: nat, x: nat, misread: seq<nat>)
    requires Encodable(value) && k < |Symbols(value)| && Stands(k, x) && x != Symbols(value)[k]
    requires misread == Symbols(value)[k := x] + [Check(Symbols(value))]
    ensures Drawable(misread) && ReadModules(AllBars(misread)) == None
  {
    hide *;
    var s := Symbols(value);
    SymbolValuesShape(value);
    SubstituteKeepsValues(s, k, x);
    SubstitutionDetected(s, k, x);
    AppendDrawable(s[k := x], Check(s));
    WrongCheckRefused(s[k := x], Check(s));
  }

  lemma {:induction false} SwapKeepsValues(s: seq<nat>, k: nat)
    requires 1 <= k && k + 1 < |s| && forall i :: 0 <= i < |s| ==> Stands(i, s[i])
    ensures |Swapped(s, k)| == |s| && s[k] < 103 && s[k + 1] < 103
    ensures Drawable(Swapped(s, k))
  {
    assert Stands(k, s[k]) && Stands(k + 1, s[k + 1]);
    forall i | 0 <= i < |s| ensures Swapped(s, k)[i] <= LAST_SYMBOL { assert Stands(i, s[i]); }
  }

  /** A printed label with two different neighbouring data symbols exchanged is refused. */
  lemma {:induction false} SwappedSymbolsRefused(value: string, k: nat, misread: seq<nat>)
    requires Encodable(value) && 1 <= k && k + 1 < |Symbols(value)| && Symbols(value)[k] != Symbols(value)[k + 1]
    requires misread == Swapped(Symbols(value), k) + [Check(Symbols(value))]
    ensures Drawable(misread) && ReadModules(AllBars(misread)) == None
  {
    hide *;
    var s := Symbols(value);
    SymbolValuesShape(value);
    SwapDetected(s, k);
    SwapKeepsValues(s, k);
    AppendDrawable(Swapped(s, k), Check(s));
    WrongCheckRefused(Swapped(s, k), Check(s));
  }

  // ---------------------------------------------------------------- what stands on the label, in numbers

  /** What the text may be: one to forty-eight printable ASCII characters. */
  lemma {:induction false} EncodableIs(value: string)
    ensures Encodable(value) <==> 1 <= |value| <= 48 && forall k :: 0 <= k < |value| ==> 32 <= value[k] as nat <= 126
  {}

  /** The printed check symbol is the start value plus the running totals of the data, modulo 103. */
  lemma {:induction false} CheckSymbolPrinted(value: string)
    requires Encodable(value)
    ensures var all := ReadSymbols(ModulesOf(value));
      && all.Some? && |all.value| >= 3
      && var n := |all.value| - 1;
         all.value[n] == (all.value[0] + TailSums(all.value[1..n])) % 103
  {
    hide Symbols, WeightedSum, TailSums, AllBars, ReadSymbols, Encodable;
    SymbolsShape(value);
    var s := Symbols(value);
    AppendCheck(s);
    AllBarsRead(s + [Check(s)]);
    WeightedSumIsTailSums(s);
  }

  lemma {:induction false} AppendCheck(s: seq<nat>)
    requires s != []
    ensures (s + [Check(s)])[0] == s[0] && (s + [Check(s)])[1..|s|] == s[1..]
  {}

  /** The label ends in the thirteen modules of the stop symbol. */
  lemma {:induction false} StopPrinted(symbols: seq<nat>)
    requires Drawable(symbols)
    ensures |AllBars(symbols)| >= 13 && AllBars(symbols)[|AllBars(symbols)| - 13..] == "1100011101011"
  {
    if symbols == [] {
      StopModules();
    } else {
      StopPrinted(symbols[1..]);
    }
  }

  lemma {:induction false} StopModules()
    ensures Bars(STOP_WIDTHS, true) == "1100011101011"
  {
    var w := STOP_WIDTHS;
    assert w[1..] == [3, 3, 1, 1, 1, 2] && w[1..][1..] == [3, 1, 1, 1, 2] && w[1..][1..][1..] == [1, 1, 1, 2];
    assert Bars([], false) == "" && Repeat('1', 2) == "11" && Repeat('0', 3) == "000" && Repeat('1', 3) == "111";
    assert Repeat('0', 1) == "0" && Repeat('1', 1) == "1";
    assert [2][1..] == [] && [1, 2][1..] == [2] && [1, 1, 2][1..] == [1, 2] && [1, 1, 1, 2][1..] == [1, 1, 2];
    assert Bars([2], true) == "11" && Bars([1, 2], false) == "011" && Bars([1, 1, 2], true) == "1011";
    assert Bars([1, 1, 1, 2], false) == "01011" && Bars([3, 1, 1, 1, 2], true) == "11101011";
  }

  /** The digits from i on, and no digit after them. */
  predicate RunOf(value: string, i: nat, n: nat)
    requires i <= |value|
  {
    && i + n <= |value| && (forall k :: i <= k < i + n ==> '0' <= value[k] <= '9')
    && (i + n == |value| || !('0' <= value[i + n] <= '9'))
  }

  lemma {:induction false} RunIsDigitRun(value: string, i: nat, n: nat)
    requires i <= |value| && RunOf(value, i, n)
    ensures DigitRun(value, i) == n
    decreases n
  {
    if n > 0 { RunIsDigitRun(value, i + 1, n - 1); }
  }

  /**
   * When pairs are used: from six digits on, from four at either end of the text, from two where pairs are already in
   * use. All whole pairs of the run are taken, otherwise a single character.
   */
  lemma {:induction false} TurnRule(value: string, i: nat, current: Option<CodeSet>, n: nat)
    requires i < |value| && Printable(value) && RunOf(value, i, n)
    ensures var (out, next, now) := Turn(value, i, current);
      if n >= 6 || (n >= 4 && (i == 0 || i + n == |value|)) || (n >= 2 && current == Some(C)) then
        && now == C && next == i + n - n % 2
        && |out| == n / 2 + (if current == Some(C) then 0 else 1)
        && (current.None? ==> out[0] == 105) && (current == Some(B) ==> out[0] == 99)
      else
        && now == B && next == i + 1
        && |out| == (if current == Some(B) then 1 else 2) && out[|out| - 1] == value[i] as nat - 32
        && (current.None? ==> out[0] == 104) && (current == Some(C) ==> out[0] == 100)
  {
    RunIsDigitRun(value, i, n);
  }

  /** A text of digits takes half as many symbols: a start, its pairs, and for an odd one out a switch and itself. */
  lemma {:induction false} DigitsTakePairs(value: string)
    requires 4 <= |value| <= 48 && forall k :: 0 <= k < |value| ==> '0' <= value[k] <= '9'
    ensures Encodable(value) && |ModulesOf(value)| == 11 * (2 + |value| / 2 + 2 * (|value| % 2)) + 13
  {
    hide Symbols, ModulesOf;
    DigitSymbols(value);
    ModulesReadBack(value);
  }

  lemma {:induction false} DigitSymbols(value: string)
    requires 4 <= |value| <= 48 && forall k :: 0 <= k < |value| ==> '0' <= value[k] <= '9'
    ensures Encodable(value) && |Symbols(value)| == 1 + |value| / 2 + 2 * (|value| % 2)
  {
    hide Turn;
    var n := |value|;
    TurnRule(value, 0, None, n);
    SymbolsUnfold(value, 0, None);
    if n % 2 == 0 {
      NoSymbolsLeft(value, Some(C));
    } else {
      TurnRule(value, n - 1, Some(C), 1);
      SymbolsUnfold(value, n - 1, Some(C));
      NoSymbolsLeft(value, Some(B));
    }
  }

  lemma {:induction false} SymbolsUnfold(value: string, i: nat, current: Option<CodeSet>)
    requires i < |value| && Printable(value)
    ensures var (out, next, now) := Turn(value, i, current);
      SymbolsFrom(value, i, current) == out + SymbolsFrom(value, next, Some(now))
  {
    hide Turn;
  }

  lemma {:induction false} NoSymbolsLeft(value: string, current: Option<CodeSet>)
    requires Printable(value)
    ensures SymbolsFrom(value, |value|, current) == []
  {}

  // ---------------------------------------------------------------- drawing rectangles

  datatype Rect = Rect(start: nat, width: nat)

  predicate Covers(rects: seq<Rect>, i: nat)
  {
    exists k :: 0 <= k < |rects| && rects[k].start <= i < rects[k].start + rects[k].width
  }

  /** Rectangles from left to right, none empty, with white between any two of them. */
  ghost predicate Separated(rects: seq<Rect>)
  {
    && (forall k :: 0 <= k < |rects| ==> rects[k].width > 0)
    && (forall j, k :: 0 <= j < k < |rects| ==> rects[j].start + rects[j].width < rects[k].start)
  }

  /** Painting one more run of dark modules behind the others. */
  lemma {:induction false} CoverStep(bits: string, rects: seq<Rect>, i: nat, j: nat)
    requires i <= j <= |bits| && forall p :: i <= p < j ==> bits[p] == '1'
    requires forall k :: 0 <= k < |rects| ==> rects[k].start + rects[k].width <= i
    requires forall p :: 0 <= p < i ==> (bits[p] == '1' <==> Covers(rects, p))
    ensures forall p :: 0 <= p < j ==> (bits[p] == '1' <==> Covers(rects + [Rect(i, j - i)], p))
  {
    forall p | 0 <= p < j ensures bits[p] == '1' <==> Covers(rects + [Rect(i, j - i)], p) {
      CoverOne(rects, Rect(i, j - i), p);
    }
  }

  lemma {:induction false} Uncovered(rects: seq<Rect>, i: nat)
    requires forall k :: 0 <= k < |rects| ==> rects[k].start + rects[k].width <= i
    ensures !Covers(rects, i)
  {}

  lemma {:induction false} CoverOne(rects: seq<Rect>, last: Rect, p: nat)
    ensures Covers(rects + [last], p) <==> Covers(rects, p) || last.start <= p < last.start + last.width
  {
    var all := rects + [last];
    assert all[|rects|] == last;
    if k :| 0 <= k < |rects| && rects[k].start <= p < rects[k].start + rects[k].width {
      assert all[k] == rects[k];
    }
  }

  /** One rectangle for each maximal run of dark modules: painting them gives the modules back. */
  method MergeBars(bits: string) returns (rects: seq<Rect>)
    ensures Separated(rects)
    ensures forall k :: 0 <= k < |rects| ==> rects[k].start + rects[k].width <= |bits|
    ensures forall i :: 0 <= i < |bits| ==> (bits[i] == '1' <==> Covers(rects, i))
  {
    hide Covers;
    rects := [];
    var i := 0;
    while i < |bits|
      invariant i <= |bits|
      invariant Separated(rects)
      invariant forall k :: 0 <= k < |rects| ==> rects[k].start + rects[k].width <= i
      invariant i < |bits| && bits[i] == '1' && rects != [] ==>
                  rects[|rects| - 1].start + rects[|rects| - 1].width < i
      invariant forall p :: 0 <= p < i ==> (bits[p] == '1' <==> Covers(rects, p))
    {
      if bits[i] != '1' {
        Uncovered(rects, i);
        i := i + 1;
        continue;
      }
      var j := i;
      while j < |bits| && bits[j] == '1'
        invariant i <= j <= |bits|
        invariant forall p :: i <= p < j ==> bits[p] == '1'
      {
        j := j + 1;
      }
      CoverStep(bits, rects, i, j);
      rects := rects + [Rect(i, j - i)];
      i := j;
    }
  }
}
