// Variations generated side by side under one lock.
module VariationRuns {
  import opened Common
  import opened Ean13
  import opened Variation
  import opened VariationLaws

  /** A call remembers the product's code from before it waited, and from the lock on what it read of the table. */
  datatype Call = Call(product: Product, code: string, combos: seq<Combo>, read: Option<seq<Row>>)

  datatype System = System(rows: seq<Row>, codes: map<Product, string>, holder: Option<nat>, running: map<nat, Call>)

  datatype Event =
    | Begin(t: nat, product: Product, colors: seq<string>, sizes: seq<string>)
    | Lock(t: nat)
    | Commit(t: nat)
    | Abort(t: nat)
    | Rename(product: Product, code: string)
    | Import(row: Row)
    | Amend(k: nat, combo: Combo)

  function Outcome(s: System, c: Call): Result<seq<Row>, Variation.Failure>
    requires c.read.Some?
  {
    InsertAll(s.rows, c.product, c.code, Todo(c.read.value, c.product, c.combos), MaxSerial(c.read.value) + 1,
              NextSeq(c.read.value, c.product, c.code))
  }

  predicate Enabled(s: System, e: Event)
  {
    match e
    case Begin(t, product, _, _) => t !in s.running && product in s.codes
    case Lock(t) => t in s.running && s.holder.None?
    case Commit(t) =>
      t in s.running && s.holder == Some(t) && s.running[t].read.Some? && Outcome(s, s.running[t]).Ok?
    case Abort(t) => t in s.running
    case Rename(product, code) => product in s.codes && forall p :: p in s.codes && p != product ==> s.codes[p] != code
    // An import makes a product of its own, called by the row's SKU.
    case Import(row) => row.product !in s.codes && Insertable(s.rows, row) && forall p :: p in s.codes ==> s.codes[p] != row.sku
    case Amend(k, combo) =>
      k < |s.rows| && forall j :: 0 <= j < |s.rows| && j != k ==> !Clash(s.rows[j], s.rows[k].(combo := combo))
  }

  function After(s: System, e: Event): System
    requires Enabled(s, e)
  {
    match e
    case Begin(t, product, colors, sizes) =>
      s.(running := s.running[t := Call(product, s.codes[product], Combos(Deduped(colors), Deduped(sizes)), None)])
    case Lock(t) => s.(holder := Some(t), running := s.running[t := s.running[t].(read := Some(s.rows))])
    case Commit(t) => s.(rows := Outcome(s, s.running[t]).value, holder := None, running := s.running - {t})
    case Abort(t) => s.(holder := if s.holder == Some(t) then None else s.holder, running := s.running - {t})
    case Rename(product, code) => s.(codes := s.codes[product := code])
    case Import(row) => s.(rows := s.rows + [row], codes := s.codes[row.product := row.sku])
    case Amend(k, combo) => s.(rows := s.rows[k := s.rows[k].(combo := combo)])
  }

  predicate Possible(s: System, run: seq<Event>)
    decreases run
  {
    run == [] || (Enabled(s, run[0]) && Possible(After(s, run[0]), run[1..]))
  }

  function Final(s: System, run: seq<Event>): System
    requires Possible(s, run)
    decreases run
  {
    if run == [] then s else Final(After(s, run[0]), run[1..])
  }

  // ---------------------------------------------------------------- what the table's keys keep, whoever writes

  lemma {:induction false} InsertAllKeepsKeys(rows: seq<Row>, product: Product, code: string, todo: seq<Combo>,
                                              serial: nat, n: nat)
    requires KeysApart(rows) && InsertAll(rows, product, code, todo, serial, n).Ok?
    ensures KeysApart(InsertAll(rows, product, code, todo, serial, n).value)
    decreases todo
  {
    hide Clash, NewRow;
    if todo != [] {
      var r := NewRow(product, code, todo[0], serial, n);
      InsertAllKeepsKeys(rows + [r], product, code, todo[1..], serial + 1, n + 1);
    }
  }

  lemma {:induction false} ClashSymmetric(a: Row, b: Row)
    ensures Clash(a, b) == Clash(b, a)
  {}

  lemma {:induction false} AmendKeepsKeys(rows: seq<Row>, k: nat, row: Row)
    requires KeysApart(rows) && k < |rows| && forall j :: 0 <= j < |rows| && j != k ==> !Clash(rows[j], row)
    ensures KeysApart(rows[k := row])
  {
    hide Clash;
    var amended := rows[k := row];
    forall i, j | 0 <= i < j < |rows| ensures !Clash(amended[i], amended[j]) {
      if i == k { ClashSymmetric(row, rows[j]); }
    }
  }

  /** In every run, generating, importing and amending at once, no SKU or barcode is ever held by two rows. */
  lemma {:induction false} RunKeepsKeys(s: System, run: seq<Event>)
    requires KeysApart(s.rows) && Possible(s, run)
    ensures KeysApart(Final(s, run).rows)
    decreases run
  {
    hide KeysApart, Enabled, After;
    if run != [] {
      EventKeepsKeys(s, run[0]);
      RunKeepsKeys(After(s, run[0]), run[1..]);
    }
  }

  lemma {:induction false} EventKeepsKeys(s: System, e: Event)
    requires KeysApart(s.rows) && Enabled(s, e)
    ensures KeysApart(After(s, e).rows)
  {
    hide Clash, InsertAll, Todo, NextSeq, Deduped, Combos, MaxSerial;
    match e
    case Commit(t) =>
      var c := s.running[t];
      InsertAllKeepsKeys(s.rows, c.product, c.code, Todo(c.read.value, c.product, c.combos), MaxSerial(c.read.value) + 1,
                         NextSeq(c.read.value, c.product, c.code));
    case Amend(k, combo) => AmendKeepsKeys(s.rows, k, s.rows[k].(combo := combo));
    case _ =>
  }

  // ---------------------------------------------------------------- what a commit adds

  /** No row of the product holds a combination the call is about to make. */
  ghost predicate TodoFree(rows: seq<Row>, c: Call)
    requires c.read.Some?
  {
    forall k :: 0 <= k < |rows| && rows[k].product == c.product ==>
      rows[k].combo !in Todo(c.read.value, c.product, c.combos)
  }

  /** Row k of those a commit adds, and what the table's keys let through with it. */
  lemma {:induction false} AddedRow(s: System, c: Call, k: nat)
    requires c.read.Some? && Outcome(s, c).Ok? && NoRepeat(c.combos)
    requires k < |Todo(c.read.value, c.product, c.combos)|
    ensures var read := c.read.value; var todo := Todo(read, c.product, c.combos);
      && |Outcome(s, c).value| == |s.rows| + |todo| && MaxSerial(read) + 1 + k <= MAX_SERIAL
      && Outcome(s, c).value[|s.rows| + k]
         == NewRow(c.product, c.code, todo[k], MaxSerial(read) + 1 + k, NextSeq(read, c.product, c.code) + k)
      && Insertable(s.rows, Outcome(s, c).value[|s.rows| + k])
  {
    hide InsertAll, Split, MaxSerial, NewRow, Insertable, NextSeq, Own;
    var read := c.read.value;
    var todo, serial, n := Todo(read, c.product, c.combos), MaxSerial(read) + 1, NextSeq(read, c.product, c.code);
    SplitNoRepeat(c.combos, CombosOf(Own(read, c.product)), false);
    InsertAllIff(s.rows, c.product, c.code, todo, serial, n);
    assert FitsAt(s.rows, c.product, c.code, todo, serial, n, k);
    InsertedRow(s.rows, c.product, c.code, todo, serial, n, k);
  }

  lemma {:induction false} NoClashAt(rows: seq<Row>, r: Row, i: nat)
    requires Insertable(rows, r) && i < |rows|
    ensures !Clash(rows[i], r)
  {
    hide Clash;
  }

  lemma {:induction false} MadeFor(product: Product, code: string, combo: Combo, serial: nat, n: nat)
    requires serial <= MAX_SERIAL
    ensures NewRow(product, code, combo, serial, n).product == product
    ensures NewRow(product, code, combo, serial, n).combo == combo
  {
    hide Sku, MakeEan13;
  }

  /** The table's keys keep an added row apart from an old one, but for a combination they do not compare. */
  lemma {:induction false} AddedApartFromOldIff(s: System, c: Call, k: nat, i: nat)
    requires c.read.Some? && Outcome(s, c).Ok? && NoRepeat(c.combos)
    requires k < |Todo(c.read.value, c.product, c.combos)| && i < |s.rows|
    ensures |Outcome(s, c).value| == |s.rows| + |Todo(c.read.value, c.product, c.combos)|
    ensures Apart(s.rows[i], Outcome(s, c).value[|s.rows| + k]) <==>
            s.rows[i].product != c.product || s.rows[i].combo != Todo(c.read.value, c.product, c.combos)[k]
  {
    hide InsertAll, Split, MaxSerial, NewRow, NextSeq, Own, Outcome, Insertable;
    var read, todo := c.read.value, Todo(c.read.value, c.product, c.combos);
    AddedRow(s, c, k);
    NoClashAt(s.rows, Outcome(s, c).value[|s.rows| + k], i);
    MadeFor(c.product, c.code, todo[k], MaxSerial(read) + 1 + k, NextSeq(read, c.product, c.code) + k);
  }

  lemma {:induction false} AddedApart(s: System, c: Call, j: nat, k: nat)
    requires c.read.Some? && Outcome(s, c).Ok? && NoRepeat(c.combos)
    requires j < k < |Todo(c.read.value, c.product, c.combos)|
    ensures |Outcome(s, c).value| == |s.rows| + |Todo(c.read.value, c.product, c.combos)|
    ensures Apart(Outcome(s, c).value[|s.rows| + j], Outcome(s, c).value[|s.rows| + k])
  {
    hide InsertAll, Split, MaxSerial, NewRow, NextSeq, Own, Apart, Outcome, Insertable;
    var read, todo := c.read.value, Todo(c.read.value, c.product, c.combos);
    AddedRow(s, c, j);
    AddedRow(s, c, k);
    SplitNoRepeat(c.combos, CombosOf(Own(read, c.product)), false);
    var serial, n := MaxSerial(read) + 1, NextSeq(read, c.product, c.code);
    NewRowsApart(c.product, c.code, todo[j], serial + j, n + j, todo[k], serial + k, n + k);
  }

  lemma {:induction false} ResultExtends(s: System, c: Call)
    requires c.read.Some? && Outcome(s, c).Ok?
    ensures |Outcome(s, c).value| == |s.rows| + |Todo(c.read.value, c.product, c.combos)|
    ensures Outcome(s, c).value[..|s.rows|] == s.rows
  {
    hide InsertAll, Todo, NextSeq, MaxSerial;
  }

  /** A commit repeats nothing exactly when no row of its product holds a combination it makes. */
  lemma {:induction false} CommitKeepsApartIff(s: System, c: Call)
    requires AllApart(s.rows) && c.read.Some? && Outcome(s, c).Ok? && NoRepeat(c.combos)
    ensures AllApart(Outcome(s, c).value) <==> TodoFree(s.rows, c)
  {
    hide Outcome, Apart, Todo;
    ResultExtends(s, c);
    var all, todo := Outcome(s, c).value, Todo(c.read.value, c.product, c.combos);
    if TodoFree(s.rows, c) {
      forall i, j | 0 <= i < j < |all| ensures Apart(all[i], all[j]) {
        if j < |s.rows| {
          assert all[..|s.rows|][i] == s.rows[i] && all[..|s.rows|][j] == s.rows[j];
        } else if i < |s.rows| {
          assert all[..|s.rows|][i] == s.rows[i];
          AddedApartFromOldIff(s, c, j - |s.rows|, i);
        } else {
          AddedApart(s, c, i - |s.rows|, j - |s.rows|);
        }
      }
    } else {
      var i :| 0 <= i < |s.rows| && s.rows[i].product == c.product && s.rows[i].combo in todo;
      var k :| 0 <= k < |todo| && todo[k] == s.rows[i].combo;
      assert all[..|s.rows|][i] == s.rows[i];
      AddedApartFromOldIff(s, c, k, i);
    }
  }

  lemma {:induction false} AddedOfProduct(s: System, c: Call, i: nat)
    requires c.read.Some? && Outcome(s, c).Ok? && NoRepeat(c.combos) && |s.rows| <= i < |Outcome(s, c).value|
    ensures Outcome(s, c).value[i].product == c.product
  {
    hide Outcome, Todo, MaxSerial, NextSeq, MakeEan13, Sku;
    ResultExtends(s, c);
    AddedRow(s, c, i - |s.rows|);
  }

  // ---------------------------------------------------------------- exactly which steps repeat a combination

  /** No other row of the product holds the combination. */
  predicate PairFree(rows: seq<Row>, k: nat, combo: Combo)
    requires k < |rows|
  {
    forall j :: 0 <= j < |rows| && j != k && rows[j].product == rows[k].product ==> rows[j].combo != combo
  }

  /** An amendment repeats nothing exactly when no other row of the product holds the combination. */
  lemma {:induction false} AmendKeepsApartIff(s: System, k: nat, combo: Combo)
    requires AllApart(s.rows) && Enabled(s, Amend(k, combo))
    ensures AllApart(After(s, Amend(k, combo)).rows) <==> PairFree(s.rows, k, combo)
  {
    hide Clash, Apart;
    var row := s.rows[k].(combo := combo);
    var rows := s.rows[k := row];
    assert After(s, Amend(k, combo)).rows == rows;
    forall j | 0 <= j < |rows| && j != k
      ensures Apart(s.rows[j], row) <==> s.rows[j].product != row.product || s.rows[j].combo != combo
      ensures Apart(row, s.rows[j]) <==> s.rows[j].product != row.product || s.rows[j].combo != combo
    {
      NoClashApartIff(s.rows[j], row);
    }
    if PairFree(s.rows, k, combo) {
      forall i, j | 0 <= i < j < |rows| ensures Apart(rows[i], rows[j]) {
        if i != k && j != k { assert Apart(s.rows[i], s.rows[j]); }
      }
    } else {
      var j :| 0 <= j < |rows| && j != k && s.rows[j].product == s.rows[k].product && s.rows[j].combo == combo;
      assert j < k ==> !Apart(rows[j], rows[k]);
      assert k < j ==> !Apart(rows[k], rows[j]);
    }
  }

  lemma {:induction false} NoClashApartIff(a: Row, b: Row)
    requires !Clash(a, b)
    ensures Apart(a, b) <==> a.product != b.product || a.combo != b.combo
    ensures Apart(b, a) <==> a.product != b.product || a.combo != b.combo
  {}

  /** What can be looked up before a step: an amendment or a commit must not meet its own combination. */
  ghost predicate Careful(s: System, e: Event)
    requires Enabled(s, e)
  {
    match e
    case Amend(k, combo) => PairFree(s.rows, k, combo)
    case Commit(t) => TodoFree(s.rows, s.running[t])
    case _ => true
  }

  /** Rows belong to products that exist, and no request names a combination twice. */
  ghost predicate Steady(s: System)
  {
    && (forall k :: 0 <= k < |s.rows| ==> s.rows[k].product in s.codes)
    && (forall t :: t in s.running ==> s.running[t].product in s.codes && NoRepeat(s.running[t].combos))
  }

  lemma {:induction false} CommitSteady(s: System, t: nat)
    requires Steady(s) && Enabled(s, Commit(t))
    ensures Steady(After(s, Commit(t)))
  {
    hide Outcome, NoRepeat;
    var c := s.running[t];
    ResultExtends(s, c);
    var all := Outcome(s, c).value;
    forall i | 0 <= i < |all| ensures all[i].product in s.codes {
      if i < |s.rows| { assert all[..|s.rows|][i] == s.rows[i]; } else { AddedOfProduct(s, c, i); }
    }
  }

  lemma {:induction false} EventSteady(s: System, e: Event)
    requires Steady(s) && Enabled(s, e)
    ensures Steady(After(s, e))
  {
    hide Deduped, Combos, NoRepeat, Outcome, Clash, Insertable;
    match e
    case Begin(_, _, colors, sizes) => RequestNoRepeat(colors, sizes);
    case Commit(t) => hide *; CommitSteady(s, t);
    case _ =>
  }

  lemma {:induction false} EventApartIff(s: System, e: Event)
    requires AllApart(s.rows) && Steady(s) && Enabled(s, e)
    ensures AllApart(After(s, e).rows) <==> Careful(s, e)
  {
    hide Apart, NoRepeat, Deduped, Combos, Outcome, TodoFree, PairFree;
    match e
    case Amend(k, combo) => AmendKeepsApartIff(s, k, combo);
    case Commit(t) => CommitKeepsApartIff(s, s.running[t]);
    case Import(row) =>
      forall i | 0 <= i < |s.rows| ensures Apart(s.rows[i], row) { NoClashApartIff(s.rows[i], row); }
    case _ =>
  }

  ghost predicate AlwaysApart(s: System, run: seq<Event>)
    requires Possible(s, run)
    decreases run
  {
    AllApart(s.rows) && (run == [] || AlwaysApart(After(s, run[0]), run[1..]))
  }

  ghost predicate AlwaysCareful(s: System, run: seq<Event>)
    requires Possible(s, run)
    decreases run
  {
    run == [] || (Careful(s, run[0]) && AlwaysCareful(After(s, run[0]), run[1..]))
  }

  /**
   * However calls, renames, imports and amendments interleave: at every moment no SKU, barcode, or colour and size of
   * a product is held twice, absent ones included, exactly when every amendment and every commit was careful.
   */
  lemma {:induction false} RunApartIff(s: System, run: seq<Event>)
    requires AllApart(s.rows) && Steady(s) && Possible(s, run)
    ensures AlwaysApart(s, run) <==> AlwaysCareful(s, run)
    decreases run
  {
    hide AllApart, Steady, Enabled, After, Careful;
    if run != [] {
      EventApartIff(s, run[0]);
      EventSteady(s, run[0]);
      if Careful(s, run[0]) {
        RunApartIff(After(s, run[0]), run[1..]);
      } else {
        assert !AllApart(After(s, run[0]).rows);
        assert !AlwaysApart(After(s, run[0]), run[1..]);
      }
    }
  }

  // ---------------------------------------------------------------- what the lock adds

  predicate Partial(combo: Combo) { combo.color.None? || combo.size.None? }

  /** No row of the product holds a combination with an absent part that the call is about to make. */
  ghost predicate PartialFree(rows: seq<Row>, c: Call)
    requires c.read.Some?
  {
    forall k :: 0 <= k < |rows| && rows[k].product == c.product && Partial(rows[k].combo) ==>
      rows[k].combo !in Todo(c.read.value, c.product, c.combos)
  }

  /** Only the holder of the lock has read anything, and what it is about to make is still to be made. */
  ghost predicate LockFine(s: System)
  {
    forall t :: t in s.running && s.running[t].read.Some? ==> s.holder == Some(t) && PartialFree(s.rows, s.running[t])
  }

  ghost predicate Sound(s: System) { AllApart(s.rows) && Steady(s) && LockFine(s) }

  /**
   * The guard of an amendment: no other row of the product holds the combination and, if the combination has an absent
   * part, no call of that product that has already read is about to make it.
   */
  ghost predicate Guarded(s: System, k: nat, combo: Combo)
    requires k < |s.rows|
  {
    && PairFree(s.rows, k, combo)
    && (Partial(combo) ==> forall t :: t in s.running && s.running[t].read.Some? && s.running[t].product == s.rows[k].product ==>
          combo !in Todo(s.running[t].read.value, s.running[t].product, s.running[t].combos))
  }

  /** With the lock free, the first half is all there is to look up. */
  lemma {:induction false} GuardWithLockFree(s: System, k: nat, combo: Combo)
    requires Sound(s) && s.holder.None? && k < |s.rows|
    ensures Guarded(s, k, combo) <==> PairFree(s.rows, k, combo)
  {
    hide AllApart, Steady, PairFree, PartialFree;
  }

  /** A combination with both its parts is kept single by the table's own key. */
  lemma {:induction false} CommitCareful(s: System, t: nat)
    requires Sound(s) && Enabled(s, Commit(t))
    ensures TodoFree(s.rows, s.running[t])
  {
    hide AllApart, Apart, Outcome, Todo, NoRepeat, Clash;
    var c := s.running[t];
    var todo := Todo(c.read.value, c.product, c.combos);
    assert PartialFree(s.rows, c);
    forall i | 0 <= i < |s.rows| && s.rows[i].product == c.product ensures s.rows[i].combo !in todo {
      if s.rows[i].combo in todo {
        var k :| 0 <= k < |todo| && todo[k] == s.rows[i].combo;
        FullPairRefused(s, c, k, i);
      }
    }
  }

  lemma {:induction false} FullPairRefused(s: System, c: Call, k: nat, i: nat)
    requires c.read.Some? && Outcome(s, c).Ok? && NoRepeat(c.combos)
    requires k < |Todo(c.read.value, c.product, c.combos)| && i < |s.rows| && s.rows[i].product == c.product
    requires Todo(c.read.value, c.product, c.combos)[k] == s.rows[i].combo
    ensures Partial(s.rows[i].combo)
  {
    hide InsertAll, Todo, MaxSerial, NewRow, NextSeq, Outcome, Insertable;
    var read, todo := c.read.value, Todo(c.read.value, c.product, c.combos);
    AddedRow(s, c, k);
    NoClashAt(s.rows, Outcome(s, c).value[|s.rows| + k], i);
    MadeFor(c.product, c.code, todo[k], MaxSerial(read) + 1 + k, NextSeq(read, c.product, c.code) + k);
  }

  lemma {:induction false} JustRead(rows: seq<Row>, product: Product, code: string, combos: seq<Combo>)
    ensures TodoFree(rows, Call(product, code, combos, Some(rows)))
  {
    hide Own, Split;
    forall k | 0 <= k < |rows| && rows[k].product == product ensures rows[k].combo !in Todo(rows, product, combos) {
      OwnListed(rows, product, rows[k]);
      InSplit(combos, CombosOf(Own(rows, product)), false, rows[k].combo);
    }
  }

  /** An amendment leaves everything sound exactly when it is guarded. */
  lemma {:induction false} AmendSoundIff(s: System, k: nat, combo: Combo)
    requires Sound(s) && Enabled(s, Amend(k, combo))
    ensures Sound(After(s, Amend(k, combo))) <==> Guarded(s, k, combo)
  {
    hide AllApart, PairFree, NoRepeat, Todo, Clash, Steady;
    AmendKeepsApartIff(s, k, combo);
    EventSteady(s, Amend(k, combo));
    var rows := s.rows[k := s.rows[k].(combo := combo)];
    forall t | t in s.running && s.running[t].read.Some?
      ensures PartialFree(rows, s.running[t]) <==>
              (s.running[t].product == s.rows[k].product && Partial(combo) ==>
                 combo !in Todo(s.running[t].read.value, s.running[t].product, s.running[t].combos))
    {
      AmendPartialFree(s.rows, s.running[t], k, combo);
    }
  }

  lemma {:induction false} AmendPartialFree(rows: seq<Row>, c: Call, k: nat, combo: Combo)
    requires c.read.Some? && k < |rows| && PartialFree(rows, c)
    ensures PartialFree(rows[k := rows[k].(combo := combo)], c) <==>
            (c.product == rows[k].product && Partial(combo) ==> combo !in Todo(c.read.value, c.product, c.combos))
  {
    hide Todo;
    var amended := rows[k := rows[k].(combo := combo)];
    if c.product == rows[k].product && Partial(combo) && combo in Todo(c.read.value, c.product, c.combos) {
      assert amended[k].combo == combo;
    }
  }

  lemma {:induction false} OtherEventSound(s: System, e: Event)
    requires Sound(s) && Enabled(s, e) && (e.Begin? || e.Lock? || e.Abort? || e.Rename? || e.Import?)
    ensures Sound(After(s, e))
  {
    hide AllApart, Apart, NoRepeat, Deduped, Combos, Outcome, Todo, TodoFree, Clash, Steady;
    EventSteady(s, e);
    EventApartIff(s, e);
    match e
    case Lock(t) =>
      var c := s.running[t];
      JustRead(s.rows, c.product, c.code, c.combos);
      FreeMeansPartialFree(s.rows, Call(c.product, c.code, c.combos, Some(s.rows)));
    case Import(row) =>
      forall t | t in s.running && s.running[t].read.Some? ensures PartialFree(s.rows + [row], s.running[t]) {
        ImportedElsewhere(s, t);
      }
    case _ =>
  }

  lemma {:induction false} FreeMeansPartialFree(rows: seq<Row>, c: Call)
    requires c.read.Some? && TodoFree(rows, c)
    ensures PartialFree(rows, c)
  {
    hide Todo;
  }

  lemma {:induction false} ImportedElsewhere(s: System, t: nat)
    requires Steady(s) && t in s.running
    ensures s.running[t].product in s.codes
  {
    hide NoRepeat;
  }

  lemma {:induction false} EventSound(s: System, e: Event)
    requires Sound(s) && Enabled(s, e) && (e.Amend? ==> Guarded(s, e.k, e.combo))
    ensures Sound(After(s, e))
  {
    hide AllApart, NoRepeat, Todo, TodoFree, Outcome, Steady, Guarded, PartialFree;
    match e
    case Amend(k, combo) => hide Sound, Enabled, After; AmendSoundIff(s, k, combo);
    case Commit(t) =>
      CommitCareful(s, t);
      EventSteady(s, e);
      EventApartIff(s, e);
    case _ => hide Sound, Enabled, After; OtherEventSound(s, e);
  }

  ghost predicate AlwaysGuarded(s: System, run: seq<Event>)
    requires Possible(s, run)
    decreases run
  {
    run == [] || ((run[0].Amend? ==> Guarded(s, run[0].k, run[0].combo)) && AlwaysGuarded(After(s, run[0]), run[1..]))
  }

  /**
   * However calls, renames, imports and guarded amendments interleave, no SKU, barcode, or colour and size of a
   * product is made twice, absent colours and sizes included. The lock is what makes every commit careful.
   */
  lemma {:induction false} RunSound(s: System, run: seq<Event>)
    requires Sound(s) && Possible(s, run) && AlwaysGuarded(s, run)
    ensures Sound(Final(s, run)) && AlwaysApart(s, run)
    decreases run
  {
    hide AllApart, Steady, LockFine, Enabled, After, Guarded;
    if run != [] {
      EventSound(s, run[0]);
      RunSound(After(s, run[0]), run[1..]);
    }
  }

  // ---------------------------------------------------------------- a commit and the call run alone

  /** While a call holds the lock, only an amendment of one of its product's rows can change what it has read of it. */
  lemma {:induction false} OwnStays(s: System, e: Event, t: nat)
    requires Sound(s) && Enabled(s, e) && t in s.running && s.running[t].read.Some?
    requires e != Commit(t) && (e.Amend? ==> s.rows[e.k].product != s.running[t].product)
    ensures Own(After(s, e).rows, s.running[t].product) == Own(s.rows, s.running[t].product)
  {
    hide AllApart, NoRepeat, Todo, Outcome, PartialFree, Own, Clash, Deduped, Combos;
    var product := s.running[t].product;
    match e
    case Import(row) => OwnOfOther(s.rows, row, product);
    case Amend(k, combo) => OwnAmended(s.rows, k, s.rows[k].(combo := combo), product);
    case _ =>
  }

  lemma {:induction false} OwnOfOther(rows: seq<Row>, row: Row, product: Product)
    requires row.product != product
    ensures Own(rows + [row], product) == Own(rows, product)
  {
    assert (rows + [row])[..|rows|] == rows;
  }

  lemma {:induction false} OwnAmended(rows: seq<Row>, k: nat, row: Row, product: Product)
    requires k < |rows| && rows[k].product != product && row.product != product
    ensures Own(rows[k := row], product) == Own(rows, product)
    decreases |rows|
  {
    var n := |rows| - 1;
    var amended := rows[k := row];
    if k < n {
      OwnAmended(rows[..n], k, row, product);
      assert amended[..n] == rows[..n][k := row];
    } else {
      assert amended[..n] == rows[..n];
    }
  }

  /**
   * If the product's own rows are as the call read them, a commit is the call run alone on the table of that moment,
   * exactly when it makes nothing or no import behind its back brought a higher serial.
   */
  lemma {:induction false} CommitIsGenerateIff(s: System, t: nat)
    requires Enabled(s, Commit(t)) && NoRepeat(s.running[t].combos)
    requires Own(s.rows, s.running[t].product) == Own(s.running[t].read.value, s.running[t].product)
    ensures var c := s.running[t];
      var g := Generate(s.rows, c.product, c.code, c.combos);
      (g.Ok? && g.value.rows == After(s, Commit(t)).rows) <==>
      Todo(c.read.value, c.product, c.combos) == [] || MaxSerial(s.rows) == MaxSerial(c.read.value)
  {
    hide InsertAll, Own, Split, MaxSerial, MaxTail, Insertable, MakeEan13, Sku;
    var c := s.running[t];
    var read, todo := c.read.value, Todo(c.read.value, c.product, c.combos);
    GenerateUnfold(s.rows, c.product, c.code, c.combos);
    assert Todo(s.rows, c.product, c.combos) == todo && NextSeq(s.rows, c.product, c.code) == NextSeq(read, c.product, c.code);
    var g := Generate(s.rows, c.product, c.code, c.combos);
    var n := NextSeq(read, c.product, c.code);
    if todo == [] {
      NothingToInsert(s.rows, c.product, c.code, MaxSerial(s.rows) + 1, n);
      NothingToInsert(s.rows, c.product, c.code, MaxSerial(read) + 1, n);
    } else if MaxSerial(s.rows) != MaxSerial(read) && g.Ok? {
      InsertedRow(s.rows, c.product, c.code, todo, MaxSerial(s.rows) + 1, n, 0);
      InsertedRow(s.rows, c.product, c.code, todo, MaxSerial(read) + 1, n, 0);
      BarcodesApart(MaxSerial(s.rows) + 1, MaxSerial(read) + 1);
    }
  }

  lemma {:induction false} NothingToInsert(rows: seq<Row>, product: Product, code: string, serial: nat, n: nat)
    ensures InsertAll(rows, product, code, [], serial, n) == Ok(rows)
  {}

  // ---------------------------------------------------------------- two ways to repeat a pair

  function Nothing(): System { System([], map[], None, map[]) }

  /** A product imported in size M, and size L of it asked for. */
  function AskedForL(r: Row): seq<Event> { [Import(r), Begin(0, r.product, [], ["L"]), Lock(0)] }

  function L(): Combo { Combo(None, Some("L")) }

  predicate SizeM(r: Row) { r.combo == Combo(None, Some("M")) && r.barcode.None? }

  lemma {:induction false} DedupedL()
    ensures Deduped(["L"]) == ["L"]
  {
    assert ["L"][..0] == [];
    assert "L"[..1] == "L" && Trim("L") == "L";
  }

  lemma {:induction false} PairsOfL(sizes: seq<Option<string>>)
    requires |sizes| == 1 && sizes[0] == Some("L")
    ensures Pairs([None], sizes) == [L()]
  {
    var colors: seq<Option<string>> := [None];
    assert colors[..0] == [];
    assert Pairs(colors, sizes) == WithColor(None, sizes);
  }

  lemma {:induction false} AskForL()
    ensures Combos(Deduped([]), Deduped(["L"])) == [L()]
  {
    hide Trim, Pairs;
    DedupedL();
    assert Deduped([]) == [];
    hide Deduped;
    PairsOfL(OrNone(["L"]));
  }

  lemma {:induction false} OneRow(r: Row)
    requires SizeM(r)
    ensures Own([r], r.product) == [r] && MaxSerial([r]) == 0 && Todo([r], r.product, [L()]) == [L()]
  {
    assert [r][..0] == [];
    var combos := [L()];
    assert combos[..0] == [];
    assert "L"[0] != "M"[0];
    assert combos[0] !in CombosOf([r]);
    assert Split([], CombosOf([r]), false) == [];
  }

  function Made(r: Row): Row { NewRow(r.product, r.sku, L(), 1, NextSeq([r], r.product, r.sku)) }

  /** The call inserts its row, whether the old one is still size M or size L by then: no key compares absent colours. */
  lemma {:induction false} LIsInserted(r: Row, now: Row)
    requires SizeM(r) && (now == r || now == r.(combo := L()))
    ensures InsertAll([now], r.product, r.sku, [L()], MaxSerial([r]) + 1, NextSeq([r], r.product, r.sku)) == Ok([now, Made(r)])
    ensures now.sku != Made(r).sku && Made(r).combo == L()
  {
    hide MakeEan13, Sku, Own, MaxTail, Tail;
    OneRow(r);
    var n := NextSeq([r], r.product, r.sku);
    NewSkuFree([r], r.product, r.sku, r, n);
    assert !Clash(now, Made(r));
    assert [now] + [Made(r)] == [now, Made(r)] && [L()][1..] == [];
    NothingToInsert([now, Made(r)], r.product, r.sku, 2, n + 1);
  }

  lemma {:induction false} RunOn(s: System, run: seq<Event>, e: Event)
    requires Possible(s, run) && Enabled(Final(s, run), e)
    ensures Possible(s, run + [e]) && Final(s, run + [e]) == After(Final(s, run), e)
    decreases run
  {
    hide Enabled, After;
    if run == [] {
      assert run + [e] == [e] && [e][1..] == [];
      assert Possible(After(s, e), []) && Final(After(s, e), []) == After(s, e);
    } else {
      RunOn(After(s, run[0]), run[1..], e);
      assert (run + [e])[0] == run[0] && (run + [e])[1..] == run[1..] + [e];
    }
  }

  function Waiting(r: Row, now: Row): System
  {
    System([now], map[r.product := r.sku], Some(0), map[0 := Call(r.product, r.sku, [L()], Some([r]))])
  }

  lemma {:induction false} LIsAsked(r: Row)
    requires SizeM(r)
    ensures Possible(Nothing(), AskedForL(r)) && Final(Nothing(), AskedForL(r)) == Waiting(r, r)
  {
    AskForL();
    hide Deduped, Combos, Possible, Final;
    NothingYet();
    RunOn(Nothing(), [], Import(r));
    assert Nothing().rows + [r] == [r];
    assert Final(Nothing(), [] + [Import(r)]) == System([r], map[r.product := r.sku], None, map[]);
    RunOn(Nothing(), [] + [Import(r)], Begin(0, r.product, [], ["L"]));
    RunOn(Nothing(), [] + [Import(r)] + [Begin(0, r.product, [], ["L"])], Lock(0));
    assert [] + [Import(r)] + [Begin(0, r.product, [], ["L"])] + [Lock(0)] == AskedForL(r);
  }

  lemma {:induction false} NothingYet()
    ensures Possible(Nothing(), []) && Final(Nothing(), []) == Nothing()
  {}

  lemma {:induction false} LIsMade(r: Row, now: Row)
    requires SizeM(r) && (now == r || now == r.(combo := L()))
    ensures Enabled(Waiting(r, now), Commit(0))
    ensures After(Waiting(r, now), Commit(0)) == System([now, Made(r)], map[r.product := r.sku], None, map[])
  {
    hide InsertAll, NextSeq, Own, MaxSerial, Made, Split, Todo;
    OneRow(r);
    LIsInserted(r, now);
    var s := Waiting(r, now);
    assert s.running - {0} == map[];
  }

  /** The new row amended to the size of the old one: the table's own key does not compare the absent colours. */
  lemma {:induction false} AmendRepeatsAbsentColor(r: Row)
    requires SizeM(r)
    ensures var run := AskedForL(r) + [Commit(0)];
      && Possible(Nothing(), run) && Possible(Nothing(), run + [Amend(1, r.combo)]) && AllApart(Final(Nothing(), run).rows)
      && !AllApart(Final(Nothing(), run + [Amend(1, r.combo)]).rows)
  {
    hide Possible, Final, AskedForL, NextSeq, Own, MaxSerial, Made, Split, Todo, InsertAll;
    LIsAsked(r);
    LIsMade(r, r);
    RunOn(Nothing(), AskedForL(r), Commit(0));
    var s := Final(Nothing(), AskedForL(r) + [Commit(0)]);
    LIsInserted(r, r);
    MadeOf(r);
    assert "L"[0] != "M"[0];
    assert Enabled(s, Amend(1, r.combo));
    RunOn(Nothing(), AskedForL(r) + [Commit(0)], Amend(1, r.combo));
    var rows := After(s, Amend(1, r.combo)).rows;
    assert !Apart(rows[0], rows[1]);
  }

  /**
   * An amendment does not take the allocation lock: between a call's reading and its commit it can take the very
   * combination the call is about to make. At that moment nothing is repeated, and the commit repeats it.
   */
  lemma {:induction false} AmendRacesCommit(r: Row)
    requires SizeM(r)
    ensures var run := AskedForL(r) + [Amend(0, L())];
      && Possible(Nothing(), run) && Possible(Nothing(), run + [Commit(0)]) && AllApart(Final(Nothing(), run).rows)
      && !AllApart(Final(Nothing(), run + [Commit(0)]).rows)
  {
    hide Possible, Final, AskedForL, NextSeq, Own, MaxSerial, Made, Split, Todo, InsertAll;
    LIsAsked(r);
    RunOn(Nothing(), AskedForL(r), Amend(0, L()));
    var now := r.(combo := L());
    assert Final(Nothing(), AskedForL(r) + [Amend(0, L())]) == Waiting(r, now);
    LIsMade(r, now);
    LIsInserted(r, now);
    RunOn(Nothing(), AskedForL(r) + [Amend(0, L())], Commit(0));
    MadeOf(r);
    var rows := After(Waiting(r, now), Commit(0)).rows;
    assert !Apart(rows[0], rows[1]);
  }

  lemma {:induction false} MadeOf(r: Row)
    ensures Made(r).product == r.product
  {
    hide MakeEan13, Sku, NextSeq;
  }
}
