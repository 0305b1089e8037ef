// Generating a product's colour and size variations.
module Variation {
  import opened Common
  import opened CodeUnits
  import opened Decimals
  import opened Ean13

  type Product = nat

  /** An absent colour or size is not the text "null", nor any other text. */
  datatype Combo = Combo(color: Option<string>, size: Option<string>)
  datatype Row = Row(product: Product, combo: Combo, sku: string, barcode: Option<string>)
  datatype Failure = NoAttributes | TooManyCombinations | ProductNotFound | BarcodeSpaceExhausted | DuplicateKey
  datatype Generated = Generated(rows: seq<Row>, created: seq<Row>, skipped: seq<Combo>)

  const MAX_COMBINATIONS := 400

  // ---------------------------------------------------------------- attributes asked for

  function TrimStart(s: string): (r: string)
    ensures |r| <= |s|
  {
    if s != "" && Space(s[0]) then TrimStart(s[1..]) else s
  }

  function TrimEnd(s: string): string
  {
    if s != "" && Space(s[|s| - 1]) then TrimEnd(s[..|s| - 1]) else s
  }

  function Trim(s: string): string { TrimEnd(TrimStart(s)) }

  function Deduped(values: seq<string>): seq<string>
  {
    if values == [] then []
    else
      var before, v := Deduped(values[..|values| - 1]), Trim(values[|values| - 1]);
      if v == "" || v in before then before else before + [v]
  }

  method Dedupe(values: seq<string>) returns (out: seq<string>)
    ensures out == Deduped(values)
  {
    hide Trim;
    out := [];
    for k := 0 to |values|
      invariant out == Deduped(values[..k])
    {
      assert values[..k + 1][..k] == values[..k];
      var v := Trim(values[k]);
      if v == "" || v in out {
        continue;
      }
      out := out + [v];
    }
    assert values[..|values|] == values;
  }

  ghost predicate Mentioned(values: seq<string>, v: string)
  {
    v != "" && exists i :: 0 <= i < |values| && Trim(values[i]) == v
  }

  lemma {:induction false} MentionedLast(values: seq<string>, v: string)
    requires values != []
    ensures Mentioned(values, v) <==>
      Mentioned(values[..|values| - 1], v) || (v != "" && Trim(values[|values| - 1]) == v)
  {
    hide Trim;
    var n := |values| - 1;
    if i :| 0 <= i < |values| && Trim(values[i]) == v && v != "" {
      assert i < n ==> values[..n][i] == values[i];
    }
    if i :| 0 <= i < n && Trim(values[..n][i]) == v && v != "" {
      assert values[i] == values[..n][i];
    }
  }

  /** Every attribute mentioned, once each, blanks dropped. */
  lemma {:induction false} DedupedIs(values: seq<string>)
    ensures NoRepeat(Deduped(values))
    ensures forall v :: v in Deduped(values) <==> Mentioned(values, v)
  {
    hide Trim, Mentioned;
    if values == [] {
      NothingMentioned();
    } else {
      DedupedIs(values[..|values| - 1]);
      forall v ensures v in Deduped(values) <==> Mentioned(values, v) { MentionedLast(values, v); }
    }
  }

  lemma {:induction false} NothingMentioned()
    ensures forall v :: !Mentioned([], v)
  {}

  // ---------------------------------------------------------------- combinations

  function OrNone(values: seq<string>): (r: seq<Option<string>>)
    ensures |r| == if values == [] then 1 else |values|
    ensures values == [] ==> r == [None]
    ensures values != [] ==> forall k :: 0 <= k < |values| ==> r[k] == Some(values[k])
  {
    if values == [] then [None] else seq(|values|, k requires 0 <= k < |values| => Some(values[k]))
  }

  function WithColor(color: Option<string>, sizes: seq<Option<string>>): (r: seq<Combo>)
    ensures |r| == |sizes| && forall k :: 0 <= k < |sizes| ==> r[k] == Combo(color, sizes[k])
  {
    seq(|sizes|, k requires 0 <= k < |sizes| => Combo(color, sizes[k]))
  }

  function Pairs(colors: seq<Option<string>>, sizes: seq<Option<string>>): (r: seq<Combo>)
    ensures |r| == |colors| * |sizes|
  {
    if colors == [] then []
    else
      assert |colors| * |sizes| == (|colors| - 1) * |sizes| + |sizes|;
      Pairs(colors[..|colors| - 1], sizes) + WithColor(colors[|colors| - 1], sizes)
  }

  function Combos(colors: seq<string>, sizes: seq<string>): seq<Combo>
  {
    Pairs(OrNone(colors), OrNone(sizes))
  }

  method ListCombos(colors: seq<string>, sizes: seq<string>) returns (combos: seq<Combo>)
    ensures combos == Combos(colors, sizes)
  {
    var cs, ss := OrNone(colors), OrNone(sizes);
    combos := [];
    for i := 0 to |cs|
      invariant combos == Pairs(cs[..i], ss)
    {
      assert cs[..i + 1][..i] == cs[..i];
      ghost var before := combos;
      for j := 0 to |ss|
        invariant combos == before + WithColor(cs[i], ss)[..j]
      {
        combos := combos + [Combo(cs[i], ss[j])];
      }
    }
    assert cs[..|cs|] == cs;
  }

  lemma {:induction false} InPairs(colors: seq<Option<string>>, sizes: seq<Option<string>>, c: Combo)
    ensures c in Pairs(colors, sizes) <==> c.color in colors && c.size in sizes
    decreases |colors|
  {
    if colors != [] {
      var n := |colors| - 1;
      InPairs(colors[..n], sizes, c);
      assert colors == colors[..n] + [colors[n]];
    }
  }

  lemma {:induction false} PairsNoRepeat(colors: seq<Option<string>>, sizes: seq<Option<string>>)
    requires NoRepeat(colors) && NoRepeat(sizes)
    ensures NoRepeat(Pairs(colors, sizes))
    decreases |colors|
  {
    if colors != [] {
      var n := |colors| - 1;
      PairsNoRepeat(colors[..n], sizes);
      forall c | c in Pairs(colors[..n], sizes) ensures c !in WithColor(colors[n], sizes) {
        InPairs(colors[..n], sizes, c);
      }
      JoinNoRepeat(Pairs(colors[..n], sizes), WithColor(colors[n], sizes));
    }
  }

  lemma {:induction false} JoinNoRepeat<T>(a: seq<T>, b: seq<T>)
    requires NoRepeat(a) && NoRepeat(b) && forall x :: x in a ==> x !in b
    ensures NoRepeat(a + b)
  {
    forall i, j | 0 <= i < j < |a + b| ensures (a + b)[i] != (a + b)[j] {
      if i < |a| <= j { assert a[i] in a && b[j - |a|] in b; }
    }
  }

  // ---------------------------------------------------------------- numbering

  /** `^20[0-9]{11}$`, the check digit not looked at, and its ten serial digits. */
  function OwnSerial(barcode: Option<string>): Option<nat>
  {
    if barcode.Some? && |barcode.value| == 13 && AllDigits(barcode.value)
       && barcode.value[0] == '2' && barcode.value[1] == '0'
    then Some(Number(barcode.value[2..12])) else None
  }

  function MaxSerial(rows: seq<Row>): nat
  {
    if rows == [] then 0
    else
      var rest, own := MaxSerial(rows[..|rows| - 1]), OwnSerial(rows[|rows| - 1].barcode);
      if own.Some? && own.value > rest then own.value else rest
  }

  /** The number behind `code-`, if the SKU has that form. */
  function Tail(code: string, sku: string): Option<nat>
  {
    if |sku| > |code| + 1 && sku[..|code|] == code && sku[|code|] == '-' && AllDigits(sku[|code| + 1..])
    then Some(Number(sku[|code| + 1..])) else None
  }

  function MaxTail(code: string, skus: seq<string>): nat
  {
    if skus == [] then 0
    else
      var rest, tail := MaxTail(code, skus[..|skus| - 1]), Tail(code, skus[|skus| - 1]);
      if tail.Some? && tail.value > rest then tail.value else rest
  }

  method NextSkuSeq(code: string, skus: seq<string>) returns (next: nat)
    ensures next == MaxTail(code, skus) + 1
  {
    hide Tail;
    var max := 0;
    for k := 0 to |skus|
      invariant max == MaxTail(code, skus[..k])
    {
      assert skus[..k + 1][..k] == skus[..k];
      var tail := Tail(code, skus[k]);
      if tail.None? {
        continue;
      }
      max := if tail.value > max then tail.value else max;
    }
    assert skus[..|skus|] == skus;
    next := max + 1;
  }

  function Sku(code: string, n: nat): string
  {
    code + "-" + PadStart(Decimal(n), 3)
  }

  lemma {:induction false} TailOfSku(code: string, n: nat)
    ensures Tail(code, Sku(code, n)) == Some(n)
  {
    PadKeepsNumber(Decimal(n), 3);
    NumberOfDecimal(n);
    var tail := PadStart(Decimal(n), 3);
    assert Sku(code, n)[..|code|] == code && Sku(code, n)[|code| + 1..] == tail;
  }

  lemma {:induction false} SkuDigits(code: string, n: nat, i: nat)
    requires i < |Sku(code, n)|
    ensures i > |code| ==> IsDigit(Sku(code, n)[i])
    ensures i == |code| ==> Sku(code, n)[i] == '-'
    ensures i < |code| ==> Sku(code, n)[i] == code[i]
    ensures |Sku(code, n)| > |code|
  {
    PadKeepsNumber(Decimal(n), 3);
  }

  /** SKUs of different product codes are never the same, nor are two numbers of one code. */
  lemma {:induction false} SkusApart(a: string, m: nat, b: string, n: nat)
    requires Sku(a, m) == Sku(b, n)
    ensures a == b && m == n
  {
    hide Sku;
    SkuLonger(a, m);
    SkuLonger(b, n);
    if |a| < |b| {
      SkuDigits(a, m, |b|);
      SkuDigits(b, n, |b|);
    } else if |b| < |a| {
      SkuDigits(a, m, |a|);
      SkuDigits(b, n, |a|);
    } else {
      forall i | 0 <= i < |a| ensures a[i] == b[i] {
        SkuDigits(a, m, i);
        SkuDigits(b, n, i);
      }
      assert a == b;
      TailOfSku(a, m);
      TailOfSku(a, n);
    }
  }

  lemma {:induction false} SkuLonger(a: string, m: nat)
    ensures |Sku(a, m)| > |a|
  {}

  lemma {:induction false} MaxSerialBound(rows: seq<Row>, r: Row)
    requires r in rows && OwnSerial(r.barcode).Some?
    ensures OwnSerial(r.barcode).value <= MaxSerial(rows)
    decreases |rows|
  {
    hide OwnSerial;
    var n := |rows| - 1;
    if r != rows[n] {
      assert rows == rows[..n] + [rows[n]];
      MaxSerialBound(rows[..n], r);
    }
  }

  lemma {:induction false} MaxTailBound(code: string, skus: seq<string>, sku: string)
    requires sku in skus && Tail(code, sku).Some?
    ensures Tail(code, sku).value <= MaxTail(code, skus)
    decreases |skus|
  {
    hide Tail;
    var n := |skus| - 1;
    if sku != skus[n] {
      assert skus == skus[..n] + [skus[n]];
      MaxTailBound(code, skus[..n], sku);
    }
  }

  lemma {:induction false} OwnSerialOfMade(serial: int)
    requires 0 <= serial <= MAX_SERIAL
    ensures MakeEan13(serial).Ok? && OwnSerial(Some(MakeEan13(serial).value)) == Some(serial)
  {
    SerialRoundTrip(serial);
    var b := MakeEan13(serial).value;
    assert b[..2] == "20";
    assert b[0] == b[..2][0] && b[1] == b[..2][1];
  }

  // ---------------------------------------------------------------- the table's unique keys

  predicate Clash(a: Row, b: Row)
  {
    || a.sku == b.sku
    || (a.barcode.Some? && a.barcode == b.barcode)
    || (a.product == b.product && a.combo == b.combo && a.combo.color.Some? && a.combo.size.Some?)
  }

  predicate Insertable(rows: seq<Row>, r: Row)
  {
    forall k :: 0 <= k < |rows| ==> !Clash(rows[k], r)
  }

  function NewRow(product: Product, code: string, combo: Combo, serial: nat, n: nat): Row
    requires serial <= MAX_SERIAL
  {
    Row(product, combo, Sku(code, n), Some(MakeEan13(serial).value))
  }

  /** The loop over what is still to be made; the first failure undoes everything. */
  function InsertAll(rows: seq<Row>, product: Product, code: string, todo: seq<Combo>, serial: nat, n: nat)
    : (r: Result<seq<Row>, Failure>)
    ensures r.Ok? ==> |r.value| == |rows| + |todo| && r.value[..|rows|] == rows
    decreases todo
  {
    if todo == [] then Ok(rows)
    else if serial > MAX_SERIAL then Err(BarcodeSpaceExhausted)
    else
      var row := NewRow(product, code, todo[0], serial, n);
      if !Insertable(rows, row) then Err(DuplicateKey)
      else InsertAll(rows + [row], product, code, todo[1..], serial + 1, n + 1)
  }

  // ---------------------------------------------------------------- generate

  function Own(rows: seq<Row>, product: Product): seq<Row>
  {
    if rows == [] then []
    else Own(rows[..|rows| - 1], product) + if rows[|rows| - 1].product == product then [rows[|rows| - 1]] else []
  }

  function SkusOf(rows: seq<Row>): (r: seq<string>)
    ensures |r| == |rows| && forall k :: 0 <= k < |rows| ==> r[k] == rows[k].sku
  {
    seq(|rows|, k requires 0 <= k < |rows| => rows[k].sku)
  }

  function CombosOf(rows: seq<Row>): (r: seq<Combo>)
    ensures |r| == |rows| && forall k :: 0 <= k < |rows| ==> r[k] == rows[k].combo
  {
    seq(|rows|, k requires 0 <= k < |rows| => rows[k].combo)
  }

  /** The combinations that are, or are not, among those seen. */
  function Split(combos: seq<Combo>, seen: seq<Combo>, present: bool): seq<Combo>
  {
    if combos == [] then []
    else
      var before, c := Split(combos[..|combos| - 1], seen, present), combos[|combos| - 1];
      if (c in seen) == present then before + [c] else before
  }

  function Generate(rows: seq<Row>, product: Product, code: string, combos: seq<Combo>): Result<Generated, Failure>
  {
    var own := Own(rows, product);
    var todo := Split(combos, CombosOf(own), false);
    match InsertAll(rows, product, code, todo, MaxSerial(rows) + 1, MaxTail(code, SkusOf(own)) + 1)
    case Err(e) => Err(e)
    case Ok(all) => Ok(Generated(all, all[|rows|..], Split(combos, CombosOf(own), true)))
  }

  function Answer(rows: seq<Row>, codes: map<Product, string>, product: Product, colors: seq<string>,
                  sizes: seq<string>)
    : Result<Generated, Failure>
  {
    var cs, ss := Deduped(colors), Deduped(sizes);
    if cs == [] && ss == [] then Err(NoAttributes)
    else if |OrNone(cs)| * |OrNone(ss)| > MAX_COMBINATIONS then Err(TooManyCombinations)
    else if product !in codes then Err(ProductNotFound)
    else Generate(rows, product, codes[product], Combos(cs, ss))
  }

  // ---------------------------------------------------------------- the table, changed in place

  class Catalog {
    var rows: seq<Row>
    var codes: map<Product, string>

    method SelectOwn(product: Product) returns (own: seq<Row>)
      ensures own == Own(rows, product)
    {
      own := [];
      for k := 0 to |rows|
        invariant own == Own(rows[..k], product)
      {
        assert rows[..k + 1][..k] == rows[..k];
        if rows[k].product == product {
          own := own + [rows[k]];
        }
      }
      assert rows[..|rows|] == rows;
    }

    method Filter(combos: seq<Combo>, seen: seq<Combo>, present: bool) returns (out: seq<Combo>)
      ensures out == Split(combos, seen, present)
    {
      out := [];
      for k := 0 to |combos|
        invariant out == Split(combos[..k], seen, present)
      {
        assert combos[..k + 1][..k] == combos[..k];
        if (combos[k] in seen) == present {
          out := out + [combos[k]];
        }
      }
      assert combos[..|combos|] == combos;
    }

    /** Inserts one row for each combination, or fails and leaves the table to be rolled back. */
    method InsertTodo(product: Product, code: string, todo: seq<Combo>, firstSerial: nat, firstSeq: nat)
      returns (r: Result<seq<Row>, Failure>)
      modifies this`rows
      ensures var all := InsertAll(old(rows), product, code, todo, firstSerial, firstSeq);
        if all.Ok? then rows == all.value && r == Ok(rows[|old(rows)|..]) else r == Err(all.error)
    {
      hide Insertable, Sku;
      var serial, n := firstSerial, firstSeq;
      var created: seq<Row> := [];
      for k := 0 to |todo|
        invariant serial == firstSerial + k && n == firstSeq + k && |rows| == |old(rows)| + k
        invariant created == rows[|old(rows)|..]
        invariant InsertAll(old(rows), product, code, todo, firstSerial, firstSeq)
               == InsertAll(rows, product, code, todo[k..], serial, n)
      {
        assert todo[k..][0] == todo[k] && todo[k..][1..] == todo[k + 1..];
        if serial > MAX_SERIAL {
          return Err(BarcodeSpaceExhausted);
        }
        OwnSerialOfMade(serial);
        var row := Row(product, todo[k], Sku(code, n), Some(MakeEan13(serial).value));
        if !Insertable(rows, row) {
          return Err(DuplicateKey);
        }
        rows := rows + [row];
        created := created + [row];
        serial := serial + 1;
        n := n + 1;
      }
      r := Ok(created);
    }

    method Generate(product: Product, colors: seq<string>, sizes: seq<string>) returns (r: Result<Generated, Failure>)
      modifies this`rows
      ensures r == Answer(old(rows), codes, product, colors, sizes)
      ensures rows == if r.Ok? then r.value.rows else old(rows)
    {
      hide *;
      var cs := Dedupe(colors);
      var ss := Dedupe(sizes);
      ghost var before := rows;
      AnswerIs(rows, codes, product, colors, sizes);
      if cs == [] && ss == [] {
        return Err(NoAttributes);
      }
      if |OrNone(cs)| * |OrNone(ss)| > MAX_COMBINATIONS {
        return Err(TooManyCombinations);
      }
      if product !in codes {
        return Err(ProductNotFound);
      }
      var combos := ListCombos(cs, ss);
      var own := SelectOwn(product);
      var todo := Filter(combos, CombosOf(own), false);
      var skipped := Filter(combos, CombosOf(own), true);
      var serial := MaxSerial(rows) + 1;
      var next := NextSkuSeq(codes[product], SkusOf(own));
      var saved := rows;
      var created := InsertTodo(product, codes[product], todo, serial, next);
      GenerateIs(before, product, codes[product], combos);
      if created.Err? {
        rows := saved;
        return Err(created.error);
      }
      r := Ok(Generated(rows, created.value, skipped));
    }
  }

  lemma {:induction false} AnswerIs(rows: seq<Row>, codes: map<Product, string>, product: Product, colors: seq<string>,
                                    sizes: seq<string>)
    ensures Answer(rows, codes, product, colors, sizes) ==
      (var cs, ss := Deduped(colors), Deduped(sizes);
       if cs == [] && ss == [] then Err(NoAttributes)
       else if |OrNone(cs)| * |OrNone(ss)| > MAX_COMBINATIONS then Err(TooManyCombinations)
       else if product !in codes then Err(ProductNotFound)
       else Generate(rows, product, codes[product], Combos(cs, ss)))
  {
    hide Generate, Deduped, Combos;
  }

  lemma {:induction false} GenerateIs(rows: seq<Row>, product: Product, code: string, combos: seq<Combo>)
    ensures Generate(rows, product, code, combos) ==
      (var own := Own(rows, product);
       var all := InsertAll(rows, product, code, Split(combos, CombosOf(own), false), MaxSerial(rows) + 1,
                            MaxTail(code, SkusOf(own)) + 1);
       if all.Err? then Err(all.error)
       else Ok(Generated(all.value, all.value[|rows|..], Split(combos, CombosOf(own), true))))
  {
    hide InsertAll, Own, Split, MaxSerial, MaxTail;
  }

  // ---------------------------------------------------------------- what is made and what is skipped

  lemma {:induction false} SplitAll(combos: seq<Combo>, seen: seq<Combo>)
    ensures multiset(Split(combos, seen, false)) + multiset(Split(combos, seen, true)) == multiset(combos)
  {
    if combos != [] {
      var n := |combos| - 1;
      SplitAll(combos[..n], seen);
      assert combos == combos[..n] + [combos[n]];
    }
  }

  lemma {:induction false} InSplit(combos: seq<Combo>, seen: seq<Combo>, present: bool, c: Combo)
    ensures c in Split(combos, seen, present) <==> c in combos && (c in seen) == present
  {
    if combos != [] {
      var n := |combos| - 1;
      InSplit(combos[..n], seen, present, c);
      assert combos == combos[..n] + [combos[n]];
    }
  }

  lemma {:induction false} SplitNoRepeat(combos: seq<Combo>, seen: seq<Combo>, present: bool)
    requires NoRepeat(combos)
    ensures NoRepeat(Split(combos, seen, present))
  {
    if combos != [] {
      var n := |combos| - 1;
      SplitNoRepeat(combos[..n], seen, present);
      InSplit(combos[..n], seen, present, combos[n]);
      assert forall c :: c in combos[..n] ==> c != combos[n];
    }
  }

  /** Row k of the new ones. */
  lemma {:induction false} InsertedRow(rows: seq<Row>, product: Product, code: string, todo: seq<Combo>, serial: nat,
                                       n: nat, k: nat)
    requires InsertAll(rows, product, code, todo, serial, n).Ok? && k < |todo|
    ensures serial + k <= MAX_SERIAL
    ensures InsertAll(rows, product, code, todo, serial, n).value[|rows| + k]
         == NewRow(product, code, todo[k], serial + k, n + k)
    decreases todo
  {
    hide Insertable, NewRow;
    var r := NewRow(product, code, todo[0], serial, n);
    if k > 0 {
      InsertedRow(rows + [r], product, code, todo[1..], serial + 1, n + 1, k - 1);
    } else {
      var all := InsertAll(rows + [r], product, code, todo[1..], serial + 1, n + 1).value;
      assert all[..|rows| + 1] == rows + [r];
      assert all[|rows|] == all[..|rows| + 1][|rows|];
    }
  }

  /** Made and skipped together are exactly the combinations asked for, and the old rows stay as they were. */
  lemma {:induction false} MadeAndSkipped(rows: seq<Row>, product: Product, code: string, combos: seq<Combo>)
    requires Generate(rows, product, code, combos).Ok?
    ensures var g := Generate(rows, product, code, combos).value;
      && g.rows == rows + g.created
      && multiset(CombosOf(g.created)) + multiset(g.skipped) == multiset(combos)
      && (forall k :: 0 <= k < |g.created| ==> g.created[k].product == product)
      && CombosOf(g.created) == Split(combos, CombosOf(Own(rows, product)), false)
  {
    hide InsertAll, Own, Split, MaxSerial, MaxTail, Insertable;
    var own := Own(rows, product);
    var todo := Split(combos, CombosOf(own), false);
    var serial, n := MaxSerial(rows) + 1, MaxTail(code, SkusOf(own)) + 1;
    var g := Generate(rows, product, code, combos).value;
    forall k | 0 <= k < |todo| ensures g.created[k].product == product && g.created[k].combo == todo[k] {
      InsertedRow(rows, product, code, todo, serial, n, k);
    }
    assert CombosOf(g.created) == todo;
    SplitAll(combos, CombosOf(own));
    assert g.rows[..|rows|] == rows;
  }
}
