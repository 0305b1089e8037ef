// Base32 of RFC 4648, section 6, with the 32-bit accumulator the code never masks.
module Base32 {
  import opened Common
  import opened Powers
  import opened CodeUnits

  datatype Failure = InvalidBase32

  const TOP: nat := 32

  // ---------------------------------------------------------------- letters

  function Letter(d: nat): (c: char)
    requires d < 32
  {
    if d < 26 then d as char + 'A' else (d - 26) as char + '2'
  }

  function IndexOfLetter(c: char): (d: Option<nat>)
    ensures d.Some? ==> d.value < 32
  {
    if 'A' <= c <= 'Z' then Some(c as nat - 'A' as nat)
    else if '2' <= c <= '7' then Some(c as nat - '2' as nat + 26)
    else None
  }

  lemma {:induction false} LetterIndex(d: nat)
    requires d < 32
    ensures IndexOfLetter(Letter(d)) == Some(d)
  {}

  predicate Letters(s: string)
  {
    forall i :: 0 <= i < |s| ==> IndexOfLetter(s[i]).Some?
  }

  function Indices(s: string): (r: seq<nat>)
    requires Letters(s)
    ensures |r| == |s| && forall i :: 0 <= i < |s| ==> Some(r[i]) == IndexOfLetter(s[i])
  {
    seq(|s|, i requires 0 <= i < |s| => IndexOfLetter(s[i]).value)
  }

  function Text(ds: seq<nat>): (r: string)
    requires Below(ds, 32)
    ensures |r| == |ds| && forall i :: 0 <= i < |ds| ==> r[i] == Letter(ds[i])
  {
    seq(|ds|, i requires 0 <= i < |ds| => Letter(ds[i]))
  }

  lemma {:induction false} IndicesOfText(ds: seq<nat>)
    requires Below(ds, 32)
    ensures Letters(Text(ds)) && Indices(Text(ds)) == ds
  {
    hide Letter, IndexOfLetter;
    forall i | 0 <= i < |ds| ensures IndexOfLetter(Text(ds)[i]) == Some(ds[i]) {
      LetterIndex(ds[i]);
    }
  }

  // ---------------------------------------------------------------- specification: one number, two sets of digits

  lemma {:induction false} Widths()
    ensures Pow2(5) == 32 && Pow2(8) == 256 && Pow2(TOP) == 0x1_0000_0000
  {
    Pow2Of32();
  }

  function Padding(n: nat): (p: nat)
    ensures p < 5 && 8 * n + p == 5 * ((8 * n + 4) / 5)
  {
    5 * ((8 * n + 4) / 5) - 8 * n
  }

  /** The bytes as one number, moved left to whole letters. */
  function EncodedDigits(buf: seq<byte>): (r: seq<nat>)
    ensures |r| == (8 * |buf| + 4) / 5
  {
    DigitsOf(FromDigits(buf, 8) * Pow2(Padding(|buf|)), 5, (8 * |buf| + 4) / 5)
  }

  lemma {:induction false} EncodedDigitsBelow(buf: seq<byte>)
    ensures Below(EncodedDigits(buf), 32)
  {
    hide Pow2, FromDigits, DigitsOf;
    Widths();
    DigitsBelow(FromDigits(buf, 8) * Pow2(Padding(|buf|)), 5, (8 * |buf| + 4) / 5);
  }

  function Encoded(buf: seq<byte>): string
  {
    EncodedDigitsBelow(buf);
    Text(EncodedDigits(buf))
  }

  /** Whole bytes of the letters as one number; the bits left over are dropped. */
  function DecodedBytes(ds: seq<nat>): (r: seq<nat>)
    ensures |r| == 5 * |ds| / 8
  {
    DigitsOf(Div(FromDigits(ds, 5), Pow2(5 * |ds| % 8)), 8, 5 * |ds| / 8)
  }

  lemma {:induction false} DecodedBytesBelow(ds: seq<nat>)
    ensures Below(DecodedBytes(ds), 256)
  {
    hide Pow2, FromDigits, DigitsOf, Div;
    Widths();
    DigitsBelow(Div(FromDigits(ds, 5), Pow2(5 * |ds| % 8)), 8, 5 * |ds| / 8);
  }

  function AsBytes(ds: seq<nat>): (r: seq<byte>)
    requires Below(ds, 256)
    ensures r == ds
  {
    seq(|ds|, i requires 0 <= i < |ds| => ds[i])
  }

  // ---------------------------------------------------------------- the loops

  /** `<<` keeps the low 32 bits; only `>>>` and `&` ever look at the result, so the sign does not matter. */
  function Shl(v: u32, k: nat): u32
  {
    Widths();
    Mod(v * Pow2(k), Pow2(TOP))
  }

  /** The loop's state over the number n read so far: whole digits are out, `bits` low bits wait in `value`. */
  ghost predicate Progress(n: nat, total: nat, out: seq<nat>, bits: nat, value: nat, w: nat)
  {
    && |out| * w + bits == total
    && out == DigitsOf(Div(n, Pow2(bits)), w, |out|)
    && value == Mod(n, Pow2(TOP))
  }

  lemma {:induction false} ShlLow(v: u32, k: nat)
    requires k <= TOP
    ensures Shl(v, k) == Mod(v, Pow2(TOP - k)) * Pow2(k)
    ensures Shl(v, k) + Pow2(k) <= Pow2(TOP)
  {
    hide Div, Mod, Pow2;
    PowAdd(TOP - k, k);
    var q, r := Div(v, Pow2(TOP - k)), Mod(v, Pow2(TOP - k));
    DivMod(v, Pow2(TOP - k));
    Distribute(q * Pow2(TOP - k), r, Pow2(k));
    MulAssoc(q, Pow2(TOP - k), Pow2(k));
    MulGap(Pow2(TOP - k), r, Pow2(k));
    DivUnique(v * Pow2(k), Pow2(TOP), q, r * Pow2(k));
  }

  lemma {:induction false} ShlKeepsModulo(n: nat, v: u32, k: nat, d: nat)
    requires k <= TOP && v == Mod(n, Pow2(TOP)) && d < Pow2(k)
    ensures Shl(v, k) + d == Mod(n * Pow2(k) + d, Pow2(TOP))
    ensures Shl(v, k) + d < Pow2(TOP)
  {
    hide Div, Mod, Pow2, Shl;
    ShlLow(v, k);
    PowAdd(TOP - k, k);
    var q, r, p := Div(n, Pow2(TOP)), Mod(v, Pow2(TOP - k)), Div(v, Pow2(TOP - k));
    DivMod(n, Pow2(TOP));
    DivMod(v, Pow2(TOP - k));
    MoveUp(n, v, q, p, r, Pow2(TOP - k), Pow2(k));
    DivUnique(n * Pow2(k) + d, Pow2(TOP), q * Pow2(k) + p, r * Pow2(k) + d);
  }

  lemma {:induction false} MoveUp(n: int, v: int, q: int, p: int, r: int, A: int, K: int)
    requires n == q * (A * K) + v && v == p * A + r
    ensures n * K == (q * K + p) * (A * K) + r * K
  {
    Distribute(q * (A * K), p * A + r, K);
    Distribute(p * A, r, K);
    MulAssoc(p, A, K);
    Distribute(q * K, p, A * K);
    Shuffle(q, A * K, K);
  }

  lemma {:induction false} Shuffle(q: int, T: int, K: int)
    ensures q * T * K == q * K * T
  {}

  /** Taking in a digit of k bits. */
  lemma {:induction false} TakeIn(n: nat, total: nat, out: seq<nat>, bits: nat, value: u32, w: nat, k: nat, d: nat)
    requires Progress(n, total, out, bits, value, w) && k <= TOP && d < Pow2(k)
    ensures Progress(n * Pow2(k) + d, total + k, out, bits + k, Shl(value, k) + d, w)
    ensures Shl(value, k) + d < Pow2(TOP)
  {
    hide Div, Mod, Pow2, Shl;
    ShlKeepsModulo(n, value, k, d);
    DivUnique(n * Pow2(k) + d, Pow2(k), n, d);
    DivDiv(n * Pow2(k) + d, Pow2(k), Pow2(bits));
    PowAdd(bits, k);
  }

  /** Putting out a digit of w bits. */
  lemma {:induction false} PutOut(n: nat, total: nat, out: seq<nat>, bits: nat, value: nat, w: nat)
    requires Progress(n, total, out, bits, value, w) && w <= bits <= TOP
    ensures Progress(n, total, out + [Mod(Div(value, Pow2(bits - w)), Pow2(w))], bits - w, value, w)
  {
    hide Div, Mod, Pow2;
    FieldOfLow(n, bits - w, w, TOP);
    DivDiv(n, Pow2(bits - w), Pow2(w));
    PowAdd(w, bits - w);
    Distribute(|out|, 1, w);
  }

  lemma {:induction false} Finished(n: nat, total: nat, out: seq<nat>, bits: nat, value: u32, w: nat)
    requires Progress(n, total, out, bits, value, w) && 0 < bits < w <= TOP
    ensures Mod(Shl(value, w - bits), Pow2(w)) == Mod(n * Pow2(w - bits), Pow2(w))
    ensures out + [Mod(Shl(value, w - bits), Pow2(w))] == DigitsOf(n * Pow2(w - bits), w, |out| + 1)
  {
    hide Div, Mod, Pow2, Shl;
    var k := w - bits;
    ShlKeepsModulo(n, value, k, 0);
    FieldOfLow(n * Pow2(k), 0, w, TOP);
    DivByOne(n * Pow2(k));
    DivByOne(Mod(n * Pow2(k), Pow2(TOP)));
    // n * 2^k over 2^w is n over 2^bits
    DivUnique(n * Pow2(k), Pow2(k), n, 0);
    DivDiv(n * Pow2(k), Pow2(k), Pow2(bits));
    PowAdd(bits, k);
  }

  lemma {:induction false} DivByOne(v: nat)
    ensures Pow2(0) == 1 && Div(v, Pow2(0)) == v
  {}

  lemma {:induction false} FromDigitsNext(ds: seq<nat>, i: nat, w: nat)
    requires i < |ds|
    ensures FromDigits(ds[..i + 1], w) == FromDigits(ds[..i], w) * Pow2(w) + ds[i]
  {
    assert ds[..i + 1][..i] == ds[..i];
  }

  /** `>>>` by k, and the low w bits of what it leaves. */
  function Field(v: u32, k: nat, w: nat): (d: nat)
    ensures d < Pow2(w)
  {
    Mod(Div(v, Pow2(k)), Pow2(w))
  }

  lemma {:induction false} TextAppend(ds: seq<nat>, d: nat)
    requires Below(ds, 32) && d < 32
    ensures Below(ds + [d], 32) && Text(ds + [d]) == Text(ds) + [Letter(d)]
  {
    hide Letter;
  }

  method Base32Encode(buf: seq<byte>) returns (out: string)
    ensures out == Encoded(buf)
  {
    hide Mod, Div, Pow2, Shl, Progress, FromDigits, Field, Letter, Text;
    var bits, value: u32 := 0, 0;
    out := "";
    ghost var digits := [];
    Started(buf);
    for i := 0 to |buf|
      invariant bits < 5 && Below(digits, 32) && out == Text(digits)
      invariant Progress(FromDigits(buf[..i], 8), 8 * i, digits, bits, value, 5)
    {
      Widths();
      TakeIn(FromDigits(buf[..i], 8), 8 * i, digits, bits, value, 5, 8, buf[i]);
      FromDigitsNext(buf, i, 8);
      value := Shl(value, 8) + buf[i];
      bits := bits + 8;
      while bits >= 5
        invariant bits <= 12 && Below(digits, 32) && out == Text(digits)
        invariant Progress(FromDigits(buf[..i + 1], 8), 8 * (i + 1), digits, bits, value, 5)
      {
        PutOutField(FromDigits(buf[..i + 1], 8), 8 * (i + 1), digits, bits, value, 5);
        TextAppend(digits, Field(value, bits - 5, 5));
        digits := digits + [Field(value, bits - 5, 5)];
        out := out + [Letter(Field(value, bits - 5, 5))];
        bits := bits - 5;
      }
    }
    EncodedDigitsBelow(buf);
    if bits > 0 {
      Widths();
      LastLetter(buf, digits, bits, value);
      TextAppend(digits, Mod(Shl(value, 5 - bits), 32));
      out := out + [Letter(Mod(Shl(value, 5 - bits), 32))];
    } else {
      NoLastLetter(buf, digits, value);
    }
  }

  lemma {:induction false} Started(buf: seq<byte>)
    ensures Progress(FromDigits(buf[..0], 8), 0, [], 0, 0, 5) && Text([]) == ""
  {
    Widths();
  }

  lemma {:induction false} PutOutField(n: nat, total: nat, out: seq<nat>, bits: nat, value: u32, w: nat)
    requires Progress(n, total, out, bits, value, w) && w <= bits <= TOP
    ensures Progress(n, total, out + [Field(value, bits - w, w)], bits - w, value, w)
  {
    hide Div, Mod, Pow2, Progress;
    PutOut(n, total, out, bits, value, w);
  }

  lemma {:induction false} LastLetter(buf: seq<byte>, out: seq<nat>, bits: nat, value: u32)
    requires 0 < bits < 5 && Progress(FromDigits(buf[..|buf|], 8), 8 * |buf|, out, bits, value, 5)
    ensures Pow2(5) == 32 && out + [Mod(Shl(value, 5 - bits), 32)] == EncodedDigits(buf)
  {
    hide Div, Mod, Pow2, Shl, FromDigits;
    assert buf[..|buf|] == buf;
    Widths();
    Finished(FromDigits(buf, 8), 8 * |buf|, out, bits, value, 5);
    assert |out| + 1 == (8 * |buf| + 4) / 5 && 5 - bits == Padding(|buf|);
  }

  lemma {:induction false} NoLastLetter(buf: seq<byte>, out: seq<nat>, value: u32)
    requires Progress(FromDigits(buf[..|buf|], 8), 8 * |buf|, out, 0, value, 5)
    ensures out == EncodedDigits(buf)
  {
    hide Div, Mod, FromDigits;
    assert buf[..|buf|] == buf;
    DivByOne(FromDigits(buf, 8));
    assert |out| == (8 * |buf| + 4) / 5 && Padding(|buf|) == 0;
  }

  // ---------------------------------------------------------------- what the decoder reads past

  predicate Ignored(c: char) { c == '=' || Space(c) }

  /**
   * `toUpperCase`, as far as it can lead to letters of the alphabet. Every other character is mapped to text that
   * holds a character outside the alphabet, and stands for it here.
   */
  function Upper(c: char): string
  {
    if 'a' <= c <= 'z' then [c - 'a' + 'A']
    else if c == '\U{0131}' then "I"
    else if c == '\U{017F}' then "S"
    else if c == '\U{00DF}' then "SS"
    else if c == '\U{FB00}' then "FF"
    else if c == '\U{FB01}' then "FI"
    else if c == '\U{FB02}' then "FL"
    else if c == '\U{FB03}' then "FFI"
    else if c == '\U{FB04}' then "FFL"
    else if c == '\U{FB05}' || c == '\U{FB06}' then "ST"
    else [c]
  }

  function Cleaned(c: char): string { if Ignored(c) then "" else Upper(c) }

  function Clean(s: string): string
  {
    if s == "" then "" else Cleaned(s[0]) + Clean(s[1..])
  }

  function Decoded(s: string): Result<seq<byte>, Failure>
  {
    var clean := Clean(s);
    if !Letters(clean) then Err(InvalidBase32)
    else
      DecodedBytesBelow(Indices(clean));
      Ok(AsBytes(DecodedBytes(Indices(clean))))
  }

  method Base32Decode(s: string) returns (r: Result<seq<byte>, Failure>)
    ensures r == Decoded(s)
  {
    hide Div, Mod, Pow2, Shl, Progress, FromDigits, Field, IndexOfLetter, Clean;
    var clean := Clean(s);
    var bits, value: u32 := 0, 0;
    var out: seq<byte> := [];
    ghost var read: seq<nat> := [];
    DecodingStarted();
    for j := 0 to |clean|
      invariant bits < 8 && |read| == j
      invariant forall i :: 0 <= i < j ==> IndexOfLetter(clean[i]) == Some(read[i])
      invariant Progress(FromDigits(read, 5), 5 * j, out, bits, value, 8)
    {
      var idx := IndexOfLetter(clean[j]);
      if idx.None? {
        return Err(InvalidBase32);
      }
      Widths();
      TakeIn(FromDigits(read, 5), 5 * j, out, bits, value, 8, 5, idx.value);
      FromDigitsAppend(read, idx.value, 5);
      read := read + [idx.value];
      value := Shl(value, 5) + idx.value;
      bits := bits + 5;
      if bits >= 8 {
        PutOutField(FromDigits(read, 5), 5 * (j + 1), out, bits, value, 8);
        out := out + [Field(value, bits - 8, 8)];
        bits := bits - 8;
      }
    }
    assert Letters(clean) && read == Indices(clean);
    DecodingEnded(read, out, bits, value);
    r := Ok(out);
  }

  lemma {:induction false} DecodingStarted()
    ensures Progress(FromDigits([], 5), 0, [], 0, 0, 8)
  {
    Widths();
  }

  lemma {:induction false} DecodingEnded(read: seq<nat>, out: seq<nat>, bits: nat, value: nat)
    requires bits < 8 && Progress(FromDigits(read, 5), 5 * |read|, out, bits, value, 8)
    ensures out == DecodedBytes(read) && Below(out, 256)
  {
    hide Div, Mod, Pow2, FromDigits;
    assert |out| == 5 * |read| / 8 && bits == 5 * |read| % 8;
    DecodedBytesBelow(read);
  }

  lemma {:induction false} FromDigitsAppend(ds: seq<nat>, d: nat, w: nat)
    ensures FromDigits(ds + [d], w) == FromDigits(ds, w) * Pow2(w) + d
  {
    assert (ds + [d])[..|ds|] == ds;
  }

  // ---------------------------------------------------------------- round trips

  lemma {:induction false} CleanCases(c: char)
    requires IndexOfLetter(c).Some?
    ensures Cleaned(c) == [c]
  {}

  lemma {:induction false} CleanLetters(s: string)
    requires Letters(s)
    ensures Clean(s) == s
  {
    hide IndexOfLetter, Cleaned;
    if s != "" {
      CleanCases(s[0]);
      CleanLetters(s[1..]);
      assert [s[0]] + s[1..] == s;
    }
  }

  lemma {:induction false} NumberMovedFits(buf: seq<byte>)
    ensures FromDigits(buf, 8) * Pow2(Padding(|buf|)) < Pow2((8 * |buf| + 4) / 5 * 5)
  {
    hide Pow2, FromDigits, Padding;
    Widths();
    var p := Padding(|buf|);
    FromDigitsBound(buf, 8);
    PowAdd(|buf| * 8, p);
    MulGap(Pow2(|buf| * 8), FromDigits(buf, 8), Pow2(p));
    assert |buf| * 8 + p == (8 * |buf| + 4) / 5 * 5;
  }

  /** The letters of any bytes, at whatever length, are decoded to those bytes. */
  lemma {:induction false} DecodeOfEncode(buf: seq<byte>)
    ensures DecodedBytes(EncodedDigits(buf)) == buf
  {
    hide Pow2, FromDigits, DigitsOf, Div;
    var n, p := FromDigits(buf, 8), Padding(|buf|);
    NumberMovedFits(buf);
    FromDigitsOf(n * Pow2(p), 5, (8 * |buf| + 4) / 5);
    DivUnique(n * Pow2(p), Pow2(p), n, 0);
    Widths();
    DigitsOfFromDigits(buf, 8);
  }

  /** Whatever a user types that cleans to the letters of some bytes is decoded to exactly those bytes. */
  lemma {:induction false} Base32RoundTrip(buf: seq<byte>, typed: string)
    requires Clean(typed) == Encoded(buf)
    ensures Decoded(typed) == Ok(buf)
  {
    hide Clean, DecodedBytes, EncodedDigits, Text, Letters;
    EncodedDigitsBelow(buf);
    IndicesOfText(EncodedDigits(buf));
    DecodeOfEncode(buf);
  }

  /** The letters themselves are such a text. */
  lemma {:induction false} EncodedIsClean(buf: seq<byte>)
    ensures Clean(Encoded(buf)) == Encoded(buf) && Decoded(Encoded(buf)) == Ok(buf)
  {
    hide Clean, EncodedDigits, Text, Letters, Decoded;
    EncodedDigitsBelow(buf);
    IndicesOfText(EncodedDigits(buf));
    CleanLetters(Encoded(buf));
    Base32RoundTrip(buf, Encoded(buf));
  }

  lemma {:induction false} CleanCons(c: char, t: string)
    ensures Clean([c] + t) == Cleaned(c) + Clean(t)
  {
    hide Cleaned;
    assert ([c] + t)[1..] == t;
  }

  lemma {:induction false} CleanConcat(a: string, b: string)
    ensures Clean(a + b) == Clean(a) + Clean(b)
    decreases |a|, 1
  {
    if a == "" {
      assert a + b == b;
    } else {
      CleanConcatStep(a[0], a[1..], b);
      HeadAndTail(a);
    }
  }

  lemma {:induction false} CleanConcatStep(c: char, t: string, b: string)
    ensures Clean([c] + t + b) == Clean([c] + t) + Clean(b)
    decreases |t| + 1, 0
  {
    hide Cleaned, Clean;
    CleanConcat(t, b);
    CleanCons(c, t);
    CleanCons(c, t + b);
    Assoc([c], t, b);
    Assoc(Cleaned(c), Clean(t), Clean(b));
  }

  lemma {:induction false} IgnoredAlone(c: char)
    requires Ignored(c)
    ensures Clean([c]) == ""
  {
    hide Ignored, Space, Upper;
    assert [c][1..] == "";
  }

  lemma {:induction false} SameCleanSameBytes(s: string, t: string)
    requires Clean(s) == Clean(t)
    ensures Decoded(s) == Decoded(t)
  {
    hide Clean, Letters, Indices, DecodedBytes;
  }

  /** White space or padding signs anywhere in the text change nothing. */
  lemma {:induction false} IgnoredAnywhere(a: string, c: char, b: string)
    requires Ignored(c)
    ensures Clean(a + [c] + b) == Clean(a + b) && Decoded(a + [c] + b) == Decoded(a + b)
  {
    hide Ignored, Space, Clean, Decoded;
    CleanConcat(a + [c], b);
    CleanConcat(a, [c]);
    CleanConcat(a, b);
    IgnoredAlone(c);
    assert Clean(a) + "" == Clean(a);
    SameCleanSameBytes(a + [c] + b, a + b);
  }

  function Lower(s: string): (r: string)
    ensures |r| == |s|
    ensures forall i :: 0 <= i < |s| ==> r[i] == if 'A' <= s[i] <= 'Z' then s[i] - 'A' + 'a' else s[i]
  {
    seq(|s|, i requires 0 <= i < |s| => if 'A' <= s[i] <= 'Z' then s[i] - 'A' + 'a' else s[i])
  }

  lemma {:induction false} LowerCases(c: char)
    ensures Cleaned(if 'A' <= c <= 'Z' then c - 'A' + 'a' else c) == Cleaned(c)
  {}

  /** Lower-case letters are read as capitals. */
  lemma {:induction false} LowerCaseRead(s: string)
    ensures Clean(Lower(s)) == Clean(s) && Decoded(Lower(s)) == Decoded(s)
  {
    hide Cleaned, Letters, Indices, DecodedBytes;
    if s != "" {
      LowerCases(s[0]);
      LowerCaseRead(s[1..]);
      assert Lower(s)[1..] == Lower(s[1..]);
    }
  }

  /** No bits of the last letter are lost: fewer than five are left over, and they are zero. */
  predicate Canonical(ds: seq<nat>)
  {
    5 * |ds| % 8 < 5 && Mod(FromDigits(ds, 5), Pow2(5 * |ds| % 8)) == 0
  }

  lemma {:induction false} QuotientFits(v: nat, a: nat, b: nat)
    requires v < Pow2(a + b)
    ensures Div(v, Pow2(b)) < Pow2(a)
  {
    hide Div, Mod, Pow2;
    PowAdd(a, b);
    DivMod(v, Pow2(b));
    if Div(v, Pow2(b)) > Pow2(a) { MulGap(Div(v, Pow2(b)), Pow2(a), Pow2(b)); }
  }

  /** Re-encoding the decoded bytes: the number loses the bits left over, and a letter when these are five or more. */
  lemma {:induction false} LettersOfDecoded(ds: seq<nat>, b: seq<byte>)
    requires Below(ds, 32) && b == DecodedBytes(ds)
    ensures var r := 5 * |ds| % 8;
      && |EncodedDigits(b)| == (if r < 5 then |ds| else |ds| - 1)
      && (r < 5 ==> EncodedDigits(b) == DigitsOf(Div(FromDigits(ds, 5), Pow2(r)) * Pow2(r), 5, |ds|))
  {
    hide Pow2, FromDigits, DigitsOf, Div;
    var n, r, q := FromDigits(ds, 5), 5 * |ds| % 8, 5 * |ds| / 8;
    Widths();
    FromDigitsBound(ds, 5);
    assert |ds| * 5 == q * 8 + r;
    QuotientFits(n, q * 8, r);
    FromDigitsOf(Div(n, Pow2(r)), 8, q);
    if r < 5 {
      assert (8 * q + 4) / 5 == |ds| && Padding(q) == r;
    } else {
      assert (8 * q + 4) / 5 == |ds| - 1;
    }
  }

  lemma {:induction false} ReencodeDigits(ds: seq<nat>, b: seq<byte>)
    requires Below(ds, 32) && b == DecodedBytes(ds)
    ensures EncodedDigits(b) == ds <==> Canonical(ds)
  {
    hide Pow2, FromDigits, DigitsOf, Div, Mod, EncodedDigits, DecodedBytes;
    var n, r := FromDigits(ds, 5), 5 * |ds| % 8;
    LettersOfDecoded(ds, b);
    if r < 5 {
      Widths();
      var cut := Div(n, Pow2(r)) * Pow2(r);
      DivMod(n, Pow2(r));
      FromDigitsBound(ds, 5);
      DigitsOfFromDigits(ds, 5);
      FromDigitsOf(cut, 5, |ds|);
      FromDigitsOf(n, 5, |ds|);
    }
  }

  lemma {:induction false} TextOfIndices(s: string)
    requires Letters(s)
    ensures Below(Indices(s), 32) && Text(Indices(s)) == s
  {
    forall i | 0 <= i < |s| ensures Letter(Indices(s)[i]) == s[i] {
      LetterOfIndex(s[i]);
    }
  }

  lemma {:induction false} LetterOfIndex(c: char)
    requires IndexOfLetter(c).Some?
    ensures Letter(IndexOfLetter(c).value) == c
  {}

  /** Decoding forgets nothing but ignored characters and case exactly when the text is canonical. */
  lemma {:induction false} ReencodeIff(typed: string)
    ensures Decoded(typed).Ok? <==> Letters(Clean(typed))
    ensures Decoded(typed).Ok? ==>
      (Encoded(Decoded(typed).value) == Clean(typed) <==> Canonical(Indices(Clean(typed))))
  {
    hide Clean, DecodedBytes, EncodedDigits, Text, Letters, Canonical, Indices;
    var clean := Clean(typed);
    if Letters(clean) {
      var ds, b := Indices(clean), Decoded(typed).value;
      TextOfIndices(clean);
      EncodedDigitsBelow(b);
      IndicesOfText(EncodedDigits(b));
      ReencodeDigits(ds, b);
    }
  }

  // ---------------------------------------------------------------- in plain letters

  /** The alphabet of RFC 4648, section 6. */
  lemma {:induction false} LetterIs(d: nat)
    requires d < 32
    ensures Letter(d) == "ABCDEFGHIJKLMNOPQRSTUVWXYZ234567"[d]
  {}

  /** A vector of RFC 4648, section 10: three bytes are five letters, and the first bits come first. */
  lemma {:induction false} FooIs()
    ensures Encoded([0x66, 0x6f, 0x6f]) == "MZXW6"
  {
    var b: seq<byte> := [0x66, 0x6f, 0x6f];
    Widths();
    hide Pow2, DigitsOf;
    assert b[..2][..1] == b[..1] && b[..1][..0] == [];
    assert FromDigits(b[..0], 8) == 0 && FromDigits(b[..1], 8) == 0x66 && FromDigits(b[..2], 8) == 0x666f;
    assert FromDigits(b, 8) == 0x666f6f;
    assert Padding(3) == 1 && Pow2(1) == 2 by { PowOne(); }
    FiveDigits();
    EncodedDigitsBelow(b);
    assert EncodedDigits(b) == [12, 25, 23, 22, 30];
    assert Text([12, 25, 23, 22, 30]) == "MZXW6" by { TextIs(); }
  }

  lemma {:induction false} PowOne()
    ensures Pow2(1) == 2
  {
    assert Pow2(0) == 1;
  }

  lemma {:induction false} FiveDigits()
    ensures DigitsOf(13426398, 5, 5) == [12, 25, 23, 22, 30]
  {
    Widths();
    hide Pow2;
    assert Div(13426398, 32) == 419574 && Div(419574, 32) == 13111 && Div(13111, 32) == 409 && Div(409, 32) == 12;
    assert DigitsOf(12, 5, 1) == [12];
    assert DigitsOf(409, 5, 2) == [12, 25];
    assert DigitsOf(13111, 5, 3) == [12, 25, 23];
    assert DigitsOf(419574, 5, 4) == [12, 25, 23, 22];
  }

  lemma {:induction false} TextIs()
    ensures Text([12, 25, 23, 22, 30]) == "MZXW6"
  {}
}
