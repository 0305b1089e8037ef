// When generating variations succeeds, and what it never repeats.
module VariationLaws {
  import opened Common
  import opened CodeUnits
  import opened Decimals
  import opened Ean13
  import opened Variation

  // ---------------------------------------------------------------- no two rows alike

  /** No SKU, barcode or colour and size twice; unlike the table's own key, this counts absent colours and sizes. */
  ghost predicate AllApart(rows: seq<Row>)
  {
    forall i, j :: 0 <= i < j < |rows| ==> Apart(rows[i], rows[j])
  }

  predicate Apart(a: Row, b: Row)
  {
    && a.sku != b.sku
    && (a.barcode.Some? ==> a.barcode != b.barcode)
    && (a.product == b.product ==> a.combo != b.combo)
  }

  /** What the table's unique keys alone guarantee. */
  ghost predicate KeysApart(rows: seq<Row>)
  {
    forall i, j :: 0 <= i < j < |rows| ==> !Clash(rows[i], rows[j])
  }

  lemma {:induction false} BarcodesApart(s: int, t: int)
    requires 0 <= s <= MAX_SERIAL && 0 <= t <= MAX_SERIAL && s != t
    ensures MakeEan13(s).Ok? && MakeEan13(t).Ok? && MakeEan13(s).value != MakeEan13(t).value
  {
    hide MakeEan13, OwnSerial;
    OwnSerialOfMade(s);
    OwnSerialOfMade(t);
  }

  /** Two new rows never stand in each other's way. */
  lemma {:induction false} NewRowsApart(product: Product, code: string, c: Combo, s: nat, m: nat, d: Combo, t: nat,
                                        n: nat)
    requires s <= MAX_SERIAL && t <= MAX_SERIAL && s != t && m != n && c != d
    ensures Apart(NewRow(product, code, c, s, m), NewRow(product, code, d, t, n))
  {
    hide MakeEan13, Sku;
    BarcodesApart(s, t);
    if Sku(code, m) == Sku(code, n) { SkusApart(code, m, code, n); }
  }

  /** One more row is insertable behind a row it keeps apart from exactly when it was before. */
  lemma {:induction false} InsertableBehind(rows: seq<Row>, r: Row, x: Row)
    requires !Clash(r, x)
    ensures Insertable(rows + [r], x) <==> Insertable(rows, x)
  {
    hide Clash;
    if Insertable(rows + [r], x) {
      forall k | 0 <= k < |rows| ensures !Clash(rows[k], x) { assert (rows + [r])[k] == rows[k]; }
    }
  }

  predicate FitsAt(rows: seq<Row>, product: Product, code: string, todo: seq<Combo>, serial: nat, n: nat, k: nat)
    requires k < |todo|
  {
    serial + k <= MAX_SERIAL && Insertable(rows, NewRow(product, code, todo[k], serial + k, n + k))
  }

  ghost predicate EachFits(rows: seq<Row>, product: Product, code: string, todo: seq<Combo>, serial: nat, n: nat)
  {
    forall k: nat :: k < |todo| ==> FitsAt(rows, product, code, todo, serial, n, k)
  }

  lemma {:induction false} EachFitsTail(rows: seq<Row>, product: Product, code: string, todo: seq<Combo>,
                                        serial: nat, n: nat)
    requires NoRepeat(todo) && todo != [] && serial <= MAX_SERIAL
    ensures EachFits(rows, product, code, todo, serial, n) <==>
      Insertable(rows, NewRow(product, code, todo[0], serial, n))
      && EachFits(rows + [NewRow(product, code, todo[0], serial, n)], product, code, todo[1..], serial + 1, n + 1)
  {
    hide Insertable, NewRow, FitsAt;
    var r, rest := NewRow(product, code, todo[0], serial, n), todo[1..];
    FitsFirst(rows, product, code, todo, serial, n);
    var more, s, m := rows + [r], serial + 1, n + 1;
    forall k: nat | k < |rest|
      ensures FitsAt(more, product, code, rest, s, m, k) <==> FitsAt(rows, product, code, todo, serial, n, k + 1)
    {
      FitsNext(rows, product, code, todo, serial, n, k);
    }
    if Insertable(rows, r) && EachFits(rows + [r], product, code, rest, serial + 1, n + 1) {
      forall k: nat | k < |todo| ensures FitsAt(rows, product, code, todo, serial, n, k) {
        if k > 0 { assert FitsAt(rows + [r], product, code, rest, serial + 1, n + 1, k - 1); }
      }
    }
  }

  lemma {:induction false} FitsFirst(rows: seq<Row>, product: Product, code: string, todo: seq<Combo>, serial: nat,
                                     n: nat)
    requires todo != [] && serial <= MAX_SERIAL
    ensures FitsAt(rows, product, code, todo, serial, n, 0) <==> Insertable(rows, NewRow(product, code, todo[0], serial, n))
  {
    hide Insertable, NewRow;
    assert serial + 0 == serial && n + 0 == n;
  }

  lemma {:induction false} FitsNext(rows: seq<Row>, product: Product, code: string, todo: seq<Combo>, serial: nat,
                                    n: nat, k: nat)
    requires NoRepeat(todo) && k + 1 < |todo| && serial <= MAX_SERIAL
    ensures var r := NewRow(product, code, todo[0], serial, n);
      FitsAt(rows, product, code, todo, serial, n, k + 1) <==>
      FitsAt(rows + [r], product, code, todo[1..], serial + 1, n + 1, k)
  {
    hide Insertable, NewRow, Clash, Apart;
    var r, s, m := NewRow(product, code, todo[0], serial, n), serial + (k + 1), n + (k + 1);
    assert todo[1..][k] == todo[k + 1] && serial + 1 + k == s && n + 1 + k == m;
    if s <= MAX_SERIAL {
      var x := NewRow(product, code, todo[k + 1], s, m);
      NewRowsApart(product, code, todo[0], serial, n, todo[k + 1], s, m);
      ApartNoClash(r, x);
      InsertableBehind(rows, r, x);
    }
  }

  lemma {:induction false} ApartNoClash(a: Row, b: Row)
    requires Apart(a, b)
    ensures !Clash(a, b)
  {}

  /** All are inserted exactly when each would be on its own. */
  lemma {:induction false} InsertAllIff(rows: seq<Row>, product: Product, code: string, todo: seq<Combo>,
                                        serial: nat, n: nat)
    requires NoRepeat(todo)
    ensures InsertAll(rows, product, code, todo, serial, n).Ok? <==> EachFits(rows, product, code, todo, serial, n)
    decreases todo
  {
    hide Insertable, NewRow;
    if todo != [] {
      if serial > MAX_SERIAL {
        assert !FitsAt(rows, product, code, todo, serial, n, 0);
      } else {
        EachFitsTail(rows, product, code, todo, serial, n);
        InsertAllIff(rows + [NewRow(product, code, todo[0], serial, n)], product, code, todo[1..], serial + 1, n + 1);
      }
    }
  }

  // ---------------------------------------------------------------- exactly when generating succeeds

  lemma {:induction false} InOwn(rows: seq<Row>, product: Product, r: Row)
    ensures r in Own(rows, product) <==> r in rows && r.product == product
    decreases |rows|
  {
    if rows != [] {
      var n := |rows| - 1;
      InOwn(rows[..n], product, r);
      assert rows == rows[..n] + [rows[n]];
    }
  }

  lemma {:induction false} OwnListed(rows: seq<Row>, product: Product, x: Row)
    requires x in rows && x.product == product
    ensures x.sku in SkusOf(Own(rows, product)) && x.combo in CombosOf(Own(rows, product))
  {
    InOwn(rows, product, x);
    var own := Own(rows, product);
    var k :| 0 <= k < |own| && own[k] == x;
    assert SkusOf(own)[k] == x.sku && CombosOf(own)[k] == x.combo;
  }

  lemma {:induction false} NewBarcodeFree(rows: seq<Row>, x: Row, serial: nat)
    requires x in rows && MaxSerial(rows) < serial <= MAX_SERIAL
    ensures MakeEan13(serial).Ok? && x.barcode != Some(MakeEan13(serial).value)
  {
    hide MakeEan13, MaxSerial, OwnSerial;
    OwnSerialOfMade(serial);
    if OwnSerial(x.barcode).Some? { MaxSerialBound(rows, x); }
  }

  lemma {:induction false} NewSkuFree(rows: seq<Row>, product: Product, code: string, x: Row, n: nat)
    requires x in rows && x.product == product && MaxTail(code, SkusOf(Own(rows, product))) < n
    ensures x.sku != Sku(code, n)
  {
    hide MaxTail, Own, Tail, Sku;
    OwnListed(rows, product, x);
    TailOfSku(code, n);
    if Tail(code, x.sku).Some? { MaxTailBound(code, SkusOf(Own(rows, product)), x.sku); }
  }

  /** Against an old row, a new one can only trip over the SKU of another product. */
  lemma {:induction false} OldAndNew(rows: seq<Row>, product: Product, code: string, x: Row, c: Combo, serial: nat,
                                     n: nat)
    requires x in rows && MaxSerial(rows) < serial <= MAX_SERIAL && MaxTail(code, SkusOf(Own(rows, product))) < n
    requires c !in CombosOf(Own(rows, product))
    ensures Clash(x, NewRow(product, code, c, serial, n)) <==> x.product != product && x.sku == Sku(code, n)
    ensures !Clash(x, NewRow(product, code, c, serial, n)) ==> Apart(x, NewRow(product, code, c, serial, n))
  {
    hide MaxTail, Own, MakeEan13, MaxSerial, Sku;
    NewBarcodeFree(rows, x, serial);
    if x.product == product {
      NewSkuFree(rows, product, code, x, n);
      OwnListed(rows, product, x);
    }
  }

  function Todo(rows: seq<Row>, product: Product, combos: seq<Combo>): seq<Combo>
  {
    Split(combos, CombosOf(Own(rows, product)), false)
  }

  function NextSeq(rows: seq<Row>, product: Product, code: string): nat
  {
    MaxTail(code, SkusOf(Own(rows, product))) + 1
  }

  /** No other product holds the SKU with number n + k. */
  predicate SkuFree(rows: seq<Row>, product: Product, code: string, n: nat, k: nat)
  {
    forall x :: x in rows && x.product != product ==> x.sku != Sku(code, n + k)
  }

  /** Serials are left for all, and no other product holds one of the SKUs about to be given out. */
  ghost predicate RoomToGenerate(rows: seq<Row>, product: Product, code: string, combos: seq<Combo>)
  {
    var todo, n := |Todo(rows, product, combos)|, NextSeq(rows, product, code);
    && MaxSerial(rows) + todo <= MAX_SERIAL
    && forall k: nat :: k < todo ==> SkuFree(rows, product, code, n, k)
  }

  lemma {:induction false} FitsOne(rows: seq<Row>, product: Product, code: string, combos: seq<Combo>, k: nat)
    requires NoRepeat(combos) && k < |Todo(rows, product, combos)|
    ensures FitsAt(rows, product, code, Todo(rows, product, combos), MaxSerial(rows) + 1, NextSeq(rows, product, code), k)
       <==> MaxSerial(rows) + 1 + k <= MAX_SERIAL && SkuFree(rows, product, code, NextSeq(rows, product, code), k)
  {
    hide MaxTail, Own, MakeEan13, MaxSerial, Sku, Split, Clash, NewRow;
    var todo, serial, n := Todo(rows, product, combos), MaxSerial(rows) + 1 + k, NextSeq(rows, product, code) + k;
    if serial <= MAX_SERIAL {
      var r := NewRow(product, code, todo[k], serial, n);
      InSplit(combos, CombosOf(Own(rows, product)), false, todo[k]);
      forall i | 0 <= i < |rows| ensures Clash(rows[i], r) <==> rows[i].product != product && rows[i].sku == Sku(code, n) {
        OldAndNew(rows, product, code, rows[i], todo[k], serial, n);
      }
      if Insertable(rows, r) {
        forall x | x in rows && x.product != product ensures x.sku != Sku(code, n) {
          var i :| 0 <= i < |rows| && rows[i] == x;
        }
      }
    }
  }

  /** Generating succeeds exactly when there is room; a full barcode range or a foreign SKU undoes it all. */
  lemma {:induction false} GenerateIff(rows: seq<Row>, product: Product, code: string, combos: seq<Combo>)
    requires NoRepeat(combos)
    ensures Generate(rows, product, code, combos).Ok? <==>
            Todo(rows, product, combos) == [] || RoomToGenerate(rows, product, code, combos)
  {
    hide *;
    var todo, serial, n := Todo(rows, product, combos), MaxSerial(rows) + 1, NextSeq(rows, product, code);
    GenerateUnfold(rows, product, code, combos);
    SplitNoRepeat(combos, CombosOf(Own(rows, product)), false);
    InsertAllIff(rows, product, code, todo, serial, n);
    FitsIffRoom(rows, product, code, combos);
  }

  lemma {:induction false} GenerateUnfold(rows: seq<Row>, product: Product, code: string, combos: seq<Combo>)
    ensures var all := InsertAll(rows, product, code, Todo(rows, product, combos), MaxSerial(rows) + 1,
                                 NextSeq(rows, product, code));
      Generate(rows, product, code, combos) ==
        if all.Err? then Err(all.error)
        else Ok(Generated(all.value, all.value[|rows|..], Split(combos, CombosOf(Own(rows, product)), true)))
    ensures Todo(rows, product, combos) == Split(combos, CombosOf(Own(rows, product)), false)
  {
    hide InsertAll, Own, Split, MaxSerial, MaxTail;
  }

  lemma {:induction false} FitsIffRoom(rows: seq<Row>, product: Product, code: string, combos: seq<Combo>)
    requires NoRepeat(combos)
    ensures EachFits(rows, product, code, Todo(rows, product, combos), MaxSerial(rows) + 1, NextSeq(rows, product, code))
       <==> Todo(rows, product, combos) == [] || RoomToGenerate(rows, product, code, combos)
  {
    hide MaxSerial, Todo, NextSeq, FitsAt, SkuFree;
    var todo, serial, n := Todo(rows, product, combos), MaxSerial(rows) + 1, NextSeq(rows, product, code);
    forall k: nat | k < |todo|
      ensures FitsAt(rows, product, code, todo, serial, n, k) <==> serial + k <= MAX_SERIAL && SkuFree(rows, product, code, n, k)
    {
      FitsOne(rows, product, code, combos, k);
    }
    if EachFits(rows, product, code, todo, serial, n) && todo != [] {
      assert FitsAt(rows, product, code, todo, serial, n, |todo| - 1);
    }
  }

  // ---------------------------------------------------------------- nothing twice, and nothing made again

  lemma {:induction false} CreatedRow(rows: seq<Row>, product: Product, code: string, combos: seq<Combo>, k: nat)
    requires NoRepeat(combos) && Generate(rows, product, code, combos).Ok? && k < |Todo(rows, product, combos)|
    ensures var g := Generate(rows, product, code, combos).value;
      var s, n := MaxSerial(rows) + 1 + k, NextSeq(rows, product, code) + k;
      && |g.rows| == |rows| + |Todo(rows, product, combos)| && s <= MAX_SERIAL
      && g.rows[|rows| + k] == NewRow(product, code, Todo(rows, product, combos)[k], s, n)
      && FitsAt(rows, product, code, Todo(rows, product, combos), MaxSerial(rows) + 1, NextSeq(rows, product, code), k)
  {
    hide InsertAll, Own, Split, MaxSerial, MaxTail, NewRow, FitsAt, Todo, NextSeq;
    var todo := Todo(rows, product, combos);
    GenerateUnfold(rows, product, code, combos);
    SplitNoRepeat(combos, CombosOf(Own(rows, product)), false);
    InsertAllIff(rows, product, code, todo, MaxSerial(rows) + 1, NextSeq(rows, product, code));
    InsertedRow(rows, product, code, todo, MaxSerial(rows) + 1, NextSeq(rows, product, code), k);
  }

  lemma {:induction false} CreatedApartFromOld(rows: seq<Row>, product: Product, code: string, combos: seq<Combo>,
                                               k: nat, x: Row)
    requires NoRepeat(combos) && Generate(rows, product, code, combos).Ok? && k < |Todo(rows, product, combos)| && x in rows
    ensures |Generate(rows, product, code, combos).value.rows| == |rows| + |Todo(rows, product, combos)|
    ensures Apart(x, Generate(rows, product, code, combos).value.rows[|rows| + k])
  {
    hide Generate, Own, Split, MaxSerial, MaxTail, NewRow, Apart, Clash;
    var todo := Todo(rows, product, combos);
    CreatedRow(rows, product, code, combos, k);
    InSplit(combos, CombosOf(Own(rows, product)), false, todo[k]);
    OldAndNew(rows, product, code, x, todo[k], MaxSerial(rows) + 1 + k, NextSeq(rows, product, code) + k);
    var i :| 0 <= i < |rows| && rows[i] == x;
  }

  lemma {:induction false} CreatedApart(rows: seq<Row>, product: Product, code: string, combos: seq<Combo>, j: nat,
                                        k: nat)
    requires NoRepeat(combos) && Generate(rows, product, code, combos).Ok? && j < k < |Todo(rows, product, combos)|
    ensures |Generate(rows, product, code, combos).value.rows| == |rows| + |Todo(rows, product, combos)|
    ensures Apart(Generate(rows, product, code, combos).value.rows[|rows| + j],
                  Generate(rows, product, code, combos).value.rows[|rows| + k])
  {
    hide Generate, Own, Split, MaxSerial, MaxTail, NewRow, Apart, FitsAt, NextSeq;
    var todo, s, n := Todo(rows, product, combos), MaxSerial(rows) + 1, NextSeq(rows, product, code);
    CreatedRow(rows, product, code, combos, j);
    CreatedRow(rows, product, code, combos, k);
    SplitNoRepeat(combos, CombosOf(Own(rows, product)), false);
    NewRowsApart(product, code, todo[j], s + j, n + j, todo[k], s + k, n + k);
  }

  /** Generating never makes a SKU, a barcode or a colour and size of a product twice, absent ones included. */
  lemma {:induction false} GenerateKeepsApart(rows: seq<Row>, product: Product, code: string, combos: seq<Combo>)
    requires AllApart(rows) && NoRepeat(combos) && Generate(rows, product, code, combos).Ok?
    ensures AllApart(Generate(rows, product, code, combos).value.rows)
  {
    hide Generate, Todo, Apart;
    var g := Generate(rows, product, code, combos).value;
    GrowsByTodo(rows, product, code, combos);
    forall i, j | 0 <= i < j < |g.rows| ensures Apart(g.rows[i], g.rows[j]) {
      if j < |rows| {
        assert g.rows[..|rows|][i] == rows[i] && g.rows[..|rows|][j] == rows[j];
      } else if i < |rows| {
        assert g.rows[..|rows|][i] == rows[i];
        CreatedApartFromOld(rows, product, code, combos, j - |rows|, rows[i]);
      } else {
        CreatedApart(rows, product, code, combos, i - |rows|, j - |rows|);
      }
    }
  }

  lemma {:induction false} GrowsByTodo(rows: seq<Row>, product: Product, code: string, combos: seq<Combo>)
    requires Generate(rows, product, code, combos).Ok?
    ensures var g := Generate(rows, product, code, combos).value;
      |g.rows| == |rows| + |Todo(rows, product, combos)| && g.rows[..|rows|] == rows && g.created == g.rows[|rows|..]
  {
    hide InsertAll, Todo, NextSeq, MaxSerial, Own, Split;
    GenerateUnfold(rows, product, code, combos);
  }

  lemma {:induction false} AllSeen(combos: seq<Combo>, seen: seq<Combo>)
    requires forall c :: c in combos ==> c in seen
    ensures Split(combos, seen, false) == [] && Split(combos, seen, true) == combos
  {
    if combos != [] {
      var n := |combos| - 1;
      assert combos == combos[..n] + [combos[n]];
      AllSeen(combos[..n], seen);
    }
  }

  lemma {:induction false} ComboPresent(rows: seq<Row>, product: Product, code: string, combos: seq<Combo>,
                                        later: seq<Row>, c: Combo)
    requires NoRepeat(combos) && Generate(rows, product, code, combos).Ok? && c in combos
    requires Generate(rows, product, code, combos).value.rows <= later
    ensures c in CombosOf(Own(later, product))
  {
    hide Generate, Own, Split, MaxSerial, MaxTail, FitsAt, NextSeq, MakeEan13, Sku;
    var g, seen := Generate(rows, product, code, combos).value, CombosOf(Own(rows, product));
    GrowsByTodo(rows, product, code, combos);
    if c in seen {
      var k :| 0 <= k < |seen| && seen[k] == c;
      var x := Own(rows, product)[k];
      InOwn(rows, product, x);
      var i :| 0 <= i < |rows| && rows[i] == x;
      assert g.rows[..|rows|][i] == x && later[i] == x;
      OwnListed(later, product, x);
    } else {
      InSplit(combos, seen, false, c);
      var todo := Todo(rows, product, combos);
      var k :| 0 <= k < |todo| && todo[k] == c;
      CreatedRow(rows, product, code, combos, k);
      assert later[|rows| + k] == g.rows[|rows| + k];
      OwnListed(later, product, later[|rows| + k]);
    }
  }

  /** Asked again, at any later time and whatever the product is called by then, nothing is made and all is skipped. */
  lemma {:induction false} RepeatMakesNothing(rows: seq<Row>, product: Product, code: string, combos: seq<Combo>,
                                              later: seq<Row>, codeThen: string)
    requires NoRepeat(combos) && Generate(rows, product, code, combos).Ok?
    requires Generate(rows, product, code, combos).value.rows <= later
    ensures Generate(later, product, codeThen, combos) == Ok(Generated(later, [], combos))
  {
    hide Generate, Own, Split, MaxSerial, MaxTail;
    forall c | c in combos ensures c in CombosOf(Own(later, product)) {
      ComboPresent(rows, product, code, combos, later, c);
    }
    AllSeen(combos, CombosOf(Own(later, product)));
    GenerateUnfold(later, product, codeThen, combos);
    assert later[|later|..] == [];
  }

  /** The combinations of one request are all different. */
  lemma {:induction false} RequestNoRepeat(colors: seq<string>, sizes: seq<string>)
    ensures NoRepeat(Combos(Deduped(colors), Deduped(sizes)))
  {
    hide Pairs, Deduped;
    DedupedIs(colors);
    DedupedIs(sizes);
    PairsNoRepeat(OrNone(Deduped(colors)), OrNone(Deduped(sizes)));
  }

  /** SKUs made from codes that no two products share never collide, however many products and numbers there are. */
  ghost predicate SkusFromCodes(rows: seq<Row>, codes: map<Product, string>)
  {
    forall x :: x in rows ==> x.product in codes && exists m: nat :: x.sku == Sku(codes[x.product], m)
  }

  lemma {:induction false} OwnCodesNeverTrip(rows: seq<Row>, codes: map<Product, string>, product: Product,
                                             combos: seq<Combo>)
    requires SkusFromCodes(rows, codes) && product in codes && NoRepeat(combos)
    requires forall p, q :: p in codes && q in codes && p != q ==> codes[p] != codes[q]
    ensures Generate(rows, product, codes[product], combos).Ok? <==>
            Todo(rows, product, combos) == [] || MaxSerial(rows) + |Todo(rows, product, combos)| <= MAX_SERIAL
  {
    hide Generate, Todo, MaxSerial, NextSeq, Sku;
    GenerateIff(rows, product, codes[product], combos);
    forall k: nat | k < |Todo(rows, product, combos)|
      ensures SkuFree(rows, product, codes[product], NextSeq(rows, product, codes[product]), k)
    {
      forall x | x in rows && x.product != product
        ensures x.sku != Sku(codes[product], NextSeq(rows, product, codes[product]) + k)
      {
        var m: nat :| x.sku == Sku(codes[x.product], m);
        if x.sku == Sku(codes[product], NextSeq(rows, product, codes[product]) + k) {
          SkusApart(codes[x.product], m, codes[product], NextSeq(rows, product, codes[product]) + k);
        }
      }
    }
  }

  /** An imported row whose SKU looks like the next one of product `A` undoes the whole request. */
  lemma {:induction false} ImportedSkuInTheWay(c: Combo)
    ensures Generate([Row(1, c, "A-001", None)], 2, "A", [c]) == Err(DuplicateKey)
  {
    var rows := [Row(1, c, "A-001", None)];
    assert rows[..0] == [];
    assert Own(rows, 2) == [] && MaxSerial(rows) == 0;
    assert [c][..0] == [];
    assert Split([c], [], false) == [c];
    assert Decimal(1) == "1";
    assert PadStart("1", 3) == PadStart("01", 3) == PadStart("001", 3) == "001";
    assert Sku("A", 1) == "A-001";
    OwnSerialOfMade(1);
    assert Clash(rows[0], NewRow(2, "A", c, 1, 1));
  }

  // ---------------------------------------------------------------- what is made, in plain terms

  lemma {:induction false} TrimStartIs(s: string)
    ensures exists a :: AllSpace(a) && s == a + TrimStart(s)
    ensures TrimStart(s) != "" ==> !Space(TrimStart(s)[0])
  {
    hide Space;
    if s != "" && Space(s[0]) {
      TrimStartIs(s[1..]);
      var a :| AllSpace(a) && s[1..] == a + TrimStart(s[1..]);
      assert AllSpace([s[0]] + a) && s == [s[0]] + a + TrimStart(s);
    } else {
      assert AllSpace("") && s == "" + TrimStart(s);
    }
  }

  predicate AllSpace(s: string) { forall k :: 0 <= k < |s| ==> Space(s[k]) }

  lemma {:induction false} TrimEndIs(s: string)
    ensures exists b :: AllSpace(b) && s == TrimEnd(s) + b
    ensures TrimEnd(s) != "" ==> !Space(TrimEnd(s)[|TrimEnd(s)| - 1]) && TrimEnd(s)[0] == s[0]
  {
    hide Space;
    if s != "" && Space(s[|s| - 1]) {
      var t := s[..|s| - 1];
      TrimEndIs(t);
      var b :| AllSpace(b) && t == TrimEnd(t) + b;
      assert AllSpace(b + [s[|s| - 1]]) && s == TrimEnd(s) + (b + [s[|s| - 1]]);
    } else {
      assert AllSpace("") && s == TrimEnd(s) + "";
    }
  }

  /** Trimming takes the white space off both ends and nothing else. */
  lemma {:induction false} TrimIs(s: string)
    ensures exists a, b :: AllSpace(a) && AllSpace(b) && s == a + Trim(s) + b
    ensures Trim(s) != "" ==> !Space(Trim(s)[0]) && !Space(Trim(s)[|Trim(s)| - 1])
  {
    hide Space, TrimStart, TrimEnd, AllSpace;
    TrimStartIs(s);
    TrimEndIs(TrimStart(s));
    var a :| AllSpace(a) && s == a + TrimStart(s);
    var b :| AllSpace(b) && TrimStart(s) == TrimEnd(TrimStart(s)) + b;
    assert s == a + Trim(s) + b;
  }

  /** All sizes of the first colour, then all sizes of the second, and so on. */
  lemma {:induction false} PairAt(colors: seq<Option<string>>, sizes: seq<Option<string>>, i: nat, j: nat)
    requires i < |colors| && j < |sizes|
    ensures 0 <= i * |sizes| + j < |Pairs(colors, sizes)|
    ensures Pairs(colors, sizes)[i * |sizes| + j] == Combo(colors[i], sizes[j])
    decreases |colors|
  {
    var n := |colors| - 1;
    assert |Pairs(colors[..n], sizes)| == n * |sizes|;
    if i < n {
      PairAt(colors[..n], sizes, i, j);
    } else {
      assert Pairs(colors, sizes)[n * |sizes| + j] == WithColor(colors[n], sizes)[j];
    }
  }

  /** What is refused before anything is read: no attribute, more than four hundred pairs, no such product. */
  lemma {:induction false} AnswerRefuses(rows: seq<Row>, codes: map<Product, string>, product: Product, colors: seq<string>,
                                         sizes: seq<string>)
    ensures var cs, ss := Deduped(colors), Deduped(sizes); var a := Answer(rows, codes, product, colors, sizes);
      var pairs := (if cs == [] then 1 else |cs|) * (if ss == [] then 1 else |ss|);
      && (a == Err(NoAttributes) <==> cs == [] && ss == [])
      && (a == Err(TooManyCombinations) <==> (cs != [] || ss != []) && pairs > 400)
      && (a == Err(ProductNotFound) <==> (cs != [] || ss != []) && pairs <= 400 && product !in codes)
      && ((cs != [] || ss != []) && pairs <= 400 && product in codes ==>
            a == Generate(rows, product, codes[product], Combos(cs, ss)))
  {
    AnswerIs(rows, codes, product, colors, sizes);
    hide Deduped, Combos, Answer;
    if product in codes { GenerateErrors(rows, product, codes[product], Combos(Deduped(colors), Deduped(sizes))); }
  }

  lemma {:induction false} InsertErrors(rows: seq<Row>, product: Product, code: string, todo: seq<Combo>, serial: nat, n: nat)
    ensures var r := InsertAll(rows, product, code, todo, serial, n);
      r.Err? ==> r.error == BarcodeSpaceExhausted || r.error == DuplicateKey
    decreases todo
  {
    hide Insertable, NewRow;
    if todo != [] && serial <= MAX_SERIAL {
      InsertErrors(rows + [NewRow(product, code, todo[0], serial, n)], product, code, todo[1..], serial + 1, n + 1);
    }
  }

  lemma {:induction false} GenerateErrors(rows: seq<Row>, product: Product, code: string, combos: seq<Combo>)
    ensures var g := Generate(rows, product, code, combos);
      g.Err? ==> g.error == BarcodeSpaceExhausted || g.error == DuplicateKey
  {
    hide InsertAll, Todo, MaxSerial, NextSeq;
    GenerateUnfold(rows, product, code, combos);
    InsertErrors(rows, product, code, Todo(rows, product, combos), MaxSerial(rows) + 1, NextSeq(rows, product, code));
  }

  /** Still to be made is what was asked for and no row of the product has. */
  lemma {:induction false} TodoIs(rows: seq<Row>, product: Product, combos: seq<Combo>, c: Combo)
    ensures c in Todo(rows, product, combos) <==>
      c in combos && forall x :: x in rows && x.product == product ==> x.combo != c
  {
    hide Own, Split;
    var own := Own(rows, product);
    InSplit(combos, CombosOf(own), false, c);
    if x :| x in rows && x.product == product && x.combo == c { OwnListed(rows, product, x); }
    if c in CombosOf(own) {
      var k :| 0 <= k < |own| && CombosOf(own)[k] == c;
      InOwn(rows, product, own[k]);
    }
  }

  /** The largest in-store serial on the table, 0 if there is none. */
  lemma {:induction false} MaxSerialIs(rows: seq<Row>)
    ensures forall x :: x in rows && OwnSerial(x.barcode).Some? ==> OwnSerial(x.barcode).value <= MaxSerial(rows)
    ensures MaxSerial(rows) == 0 || exists x :: x in rows && OwnSerial(x.barcode) == Some(MaxSerial(rows))
    decreases |rows|
  {
    hide OwnSerial;
    forall x | x in rows && OwnSerial(x.barcode).Some? ensures OwnSerial(x.barcode).value <= MaxSerial(rows) {
      MaxSerialBound(rows, x);
    }
    if rows != [] {
      var n := |rows| - 1;
      MaxSerialIs(rows[..n]);
      assert rows[n] in rows && rows == rows[..n] + [rows[n]];
      if MaxSerial(rows) == MaxSerial(rows[..n]) && MaxSerial(rows) != 0 {
        var x :| x in rows[..n] && OwnSerial(x.barcode) == Some(MaxSerial(rows[..n]));
        assert x in rows;
      }
    }
  }

  lemma {:induction false} MaxTailIs(code: string, skus: seq<string>)
    ensures forall x :: x in skus && Tail(code, x).Some? ==> Tail(code, x).value <= MaxTail(code, skus)
    ensures MaxTail(code, skus) == 0 || exists x :: x in skus && Tail(code, x) == Some(MaxTail(code, skus))
    decreases |skus|
  {
    hide Tail;
    forall x | x in skus && Tail(code, x).Some? ensures Tail(code, x).value <= MaxTail(code, skus) {
      MaxTailBound(code, skus, x);
    }
    if skus != [] {
      var n := |skus| - 1;
      MaxTailIs(code, skus[..n]);
      assert skus[n] in skus && skus == skus[..n] + [skus[n]];
      if MaxTail(code, skus) == MaxTail(code, skus[..n]) && MaxTail(code, skus) != 0 {
        var x :| x in skus[..n] && Tail(code, x) == Some(MaxTail(code, skus[..n]));
        assert x in skus;
      }
    }
  }

  /**
   * Row k that is made: the k-th combination still to be made, the k-th SKU after the largest of the product's code, in at
   * least three digits, and the in-store barcode of the k-th serial after the largest on the table.
   */
  lemma {:induction false} MadeIs(rows: seq<Row>, product: Product, code: string, combos: seq<Combo>, k: nat)
    requires NoRepeat(combos) && Generate(rows, product, code, combos).Ok? && k < |Todo(rows, product, combos)|
    ensures var g := Generate(rows, product, code, combos).value; var n := MaxTail(code, SkusOf(Own(rows, product))) + 1 + k;
      && |g.created| == |Todo(rows, product, combos)| && g.created[k] == g.rows[|rows| + k]
      && var r := g.created[k];
      && r.product == product && r.combo == Todo(rows, product, combos)[k]
      && r.sku == code + "-" + PadStart(Decimal(n), 3)
      && r.barcode.Some? && var b := r.barcode.value;
         |b| == 13 && Valid(b) && b[..2] == "20" && Number(b[2..12]) == MaxSerial(rows) + 1 + k
  {
    hide Generate, Todo, MaxSerial, MaxTail, Own, FitsAt, Decimal, PadStart;
    GrowsByTodo(rows, product, code, combos);
    CreatedRow(rows, product, code, combos, k);
    var serial := MaxSerial(rows) + 1 + k;
    SerialRoundTrip(serial);
    hide MakeEan13, Valid;
  }

  /** The k-th number after n, with the zeros in front. */
  lemma {:induction false} PaddedIs(n: nat)
    ensures |PadStart(Decimal(n), 3)| >= 3 && AllDigits(PadStart(Decimal(n), 3)) && Number(PadStart(Decimal(n), 3)) == n
  {
    PadKeepsNumber(Decimal(n), 3);
    NumberOfDecimal(n);
  }
}
