// The symbol table of Code 128: the widths of the three bars and three spaces of each symbol, and that no two symbols
// look alike. Kept apart so that proofs elsewhere do not see the table.
module Code128Table {

  /** Bar, space, bar, space, bar, space: six widths in modules, dark first. */
  datatype Widths = W(b0: nat, s0: nat, b1: nat, s1: nat, b2: nat, s2: nat)

  /** Symbols 0..105 have six widths; the stop symbol, 106, has a seventh and is kept apart. */
  const LAST_SYMBOL: nat := 105

  function Pick(k: nat, a0: Widths, a1: Widths, a2: Widths, a3: Widths, a4: Widths,
                a5: Widths, a6: Widths, a7: Widths, a8: Widths, a9: Widths): Widths
  {
    if k == 0 then a0 else if k == 1 then a1 else if k == 2 then a2 else if k == 3 then a3
    else if k == 4 then a4 else if k == 5 then a5 else if k == 6 then a6 else if k == 7 then a7
    else if k == 8 then a8 else a9
  }

  function Pattern(v: nat): Widths
    requires v <= LAST_SYMBOL
  {
    if v < 10 then Pick(v - 0,
      W(2, 1, 2, 2, 2, 2), W(2, 2, 2, 1, 2, 2), W(2, 2, 2, 2, 2, 1), W(1, 2, 1, 2, 2, 3), W(1, 2, 1, 3, 2, 2),
      W(1, 3, 1, 2, 2, 2), W(1, 2, 2, 2, 1, 3), W(1, 2, 2, 3, 1, 2), W(1, 3, 2, 2, 1, 2), W(2, 2, 1, 2, 1, 3))
    else if v < 20 then Pick(v - 10,
      W(2, 2, 1, 3, 1, 2), W(2, 3, 1, 2, 1, 2), W(1, 1, 2, 2, 3, 2), W(1, 2, 2, 1, 3, 2), W(1, 2, 2, 2, 3, 1),
      W(1, 1, 3, 2, 2, 2), W(1, 2, 3, 1, 2, 2), W(1, 2, 3, 2, 2, 1), W(2, 2, 3, 2, 1, 1), W(2, 2, 1, 1, 3, 2))
    else if v < 30 then Pick(v - 20,
      W(2, 2, 1, 2, 3, 1), W(2, 1, 3, 2, 1, 2), W(2, 2, 3, 1, 1, 2), W(3, 1, 2, 1, 3, 1), W(3, 1, 1, 2, 2, 2),
      W(3, 2, 1, 1, 2, 2), W(3, 2, 1, 2, 2, 1), W(3, 1, 2, 2, 1, 2), W(3, 2, 2, 1, 1, 2), W(3, 2, 2, 2, 1, 1))
    else if v < 40 then Pick(v - 30,
      W(2, 1, 2, 1, 2, 3), W(2, 1, 2, 3, 2, 1), W(2, 3, 2, 1, 2, 1), W(1, 1, 1, 3, 2, 3), W(1, 3, 1, 1, 2, 3),
      W(1, 3, 1, 3, 2, 1), W(1, 1, 2, 3, 1, 3), W(1, 3, 2, 1, 1, 3), W(1, 3, 2, 3, 1, 1), W(2, 1, 1, 3, 1, 3))
    else if v < 50 then Pick(v - 40,
      W(2, 3, 1, 1, 1, 3), W(2, 3, 1, 3, 1, 1), W(1, 1, 2, 1, 3, 3), W(1, 1, 2, 3, 3, 1), W(1, 3, 2, 1, 3, 1),
      W(1, 1, 3, 1, 2, 3), W(1, 1, 3, 3, 2, 1), W(1, 3, 3, 1, 2, 1), W(3, 1, 3, 1, 2, 1), W(2, 1, 1, 3, 3, 1))
    else if v < 60 then Pick(v - 50,
      W(2, 3, 1, 1, 3, 1), W(2, 1, 3, 1, 1, 3), W(2, 1, 3, 3, 1, 1), W(2, 1, 3, 1, 3, 1), W(3, 1, 1, 1, 2, 3),
      W(3, 1, 1, 3, 2, 1), W(3, 3, 1, 1, 2, 1), W(3, 1, 2, 1, 1, 3), W(3, 1, 2, 3, 1, 1), W(3, 3, 2, 1, 1, 1))
    else if v < 70 then Pick(v - 60,
      W(3, 1, 4, 1, 1, 1), W(2, 2, 1, 4, 1, 1), W(4, 3, 1, 1, 1, 1), W(1, 1, 1, 2, 2, 4), W(1, 1, 1, 4, 2, 2),
      W(1, 2, 1, 1, 2, 4), W(1, 2, 1, 4, 2, 1), W(1, 4, 1, 1, 2, 2), W(1, 4, 1, 2, 2, 1), W(1, 1, 2, 2, 1, 4))
    else if v < 80 then Pick(v - 70,
      W(1, 1, 2, 4, 1, 2), W(1, 2, 2, 1, 1, 4), W(1, 2, 2, 4, 1, 1), W(1, 4, 2, 1, 1, 2), W(1, 4, 2, 2, 1, 1),
      W(2, 4, 1, 2, 1, 1), W(2, 2, 1, 1, 1, 4), W(4, 1, 3, 1, 1, 1), W(2, 4, 1, 1, 1, 2), W(1, 3, 4, 1, 1, 1))
    else if v < 90 then Pick(v - 80,
      W(1, 1, 1, 2, 4, 2), W(1, 2, 1, 1, 4, 2), W(1, 2, 1, 2, 4, 1), W(1, 1, 4, 2, 1, 2), W(1, 2, 4, 1, 1, 2),
      W(1, 2, 4, 2, 1, 1), W(4, 1, 1, 2, 1, 2), W(4, 2, 1, 1, 1, 2), W(4, 2, 1, 2, 1, 1), W(2, 1, 2, 1, 4, 1))
    else if v < 100 then Pick(v - 90,
      W(2, 1, 4, 1, 2, 1), W(4, 1, 2, 1, 2, 1), W(1, 1, 1, 1, 4, 3), W(1, 1, 1, 3, 4, 1), W(1, 3, 1, 1, 4, 1),
      W(1, 1, 4, 1, 1, 3), W(1, 1, 4, 3, 1, 1), W(4, 1, 1, 1, 1, 3), W(4, 1, 1, 3, 1, 1), W(1, 1, 3, 1, 4, 1))
    else if v == 100 then W(1, 1, 4, 1, 3, 1)
    else if v == 101 then W(3, 1, 1, 1, 4, 1)
    else if v == 102 then W(4, 1, 1, 1, 3, 1)
    else if v == 103 then W(2, 1, 1, 4, 1, 2)
    else if v == 104 then W(2, 1, 1, 2, 1, 4)
    else W(2, 1, 1, 2, 3, 2)
  }

  // No two symbols look alike. One lemma for each row of the table keeps every proof small.

  lemma {:induction false} Distinct0(v: nat, u: nat)
    requires 0 <= v <= u <= LAST_SYMBOL && v < 10 && Pattern(v) == Pattern(u)
    ensures v == u
  {}

  lemma {:induction false} Distinct1(v: nat, u: nat)
    requires 10 <= v <= u <= LAST_SYMBOL && v < 20 && Pattern(v) == Pattern(u)
    ensures v == u
  {}

  lemma {:induction false} Distinct2(v: nat, u: nat)
    requires 20 <= v <= u <= LAST_SYMBOL && v < 30 && Pattern(v) == Pattern(u)
    ensures v == u
  {}

  lemma {:induction false} Distinct3(v: nat, u: nat)
    requires 30 <= v <= u <= LAST_SYMBOL && v < 40 && Pattern(v) == Pattern(u)
    ensures v == u
  {}

  lemma {:induction false} Distinct4(v: nat, u: nat)
    requires 40 <= v <= u <= LAST_SYMBOL && v < 50 && Pattern(v) == Pattern(u)
    ensures v == u
  {}

  lemma {:induction false} Distinct5(v: nat, u: nat)
    requires 50 <= v <= u <= LAST_SYMBOL && v < 60 && Pattern(v) == Pattern(u)
    ensures v == u
  {}

  lemma {:induction false} Distinct6(v: nat, u: nat)
    requires 60 <= v <= u <= LAST_SYMBOL && v < 70 && Pattern(v) == Pattern(u)
    ensures v == u
  {}

  lemma {:induction false} Distinct7(v: nat, u: nat)
    requires 70 <= v <= u <= LAST_SYMBOL && v < 80 && Pattern(v) == Pattern(u)
    ensures v == u
  {}

  lemma {:induction false} Distinct8(v: nat, u: nat)
    requires 80 <= v <= u <= LAST_SYMBOL && v < 90 && Pattern(v) == Pattern(u)
    ensures v == u
  {}

  lemma {:induction false} Distinct9(v: nat, u: nat)
    requires 90 <= v <= u <= LAST_SYMBOL && v < 100 && Pattern(v) == Pattern(u)
    ensures v == u
  {}

  lemma {:induction false} Distinct10(v: nat, u: nat)
    requires 100 <= v <= u <= LAST_SYMBOL && v <= LAST_SYMBOL && Pattern(v) == Pattern(u)
    ensures v == u
  {}

  lemma {:induction false} PatternsDistinct(v: nat, u: nat)
    requires v <= u <= LAST_SYMBOL && Pattern(v) == Pattern(u)
    ensures v == u
  {
    if v < 10 { Distinct0(v, u); } else if v < 20 { Distinct1(v, u); } else if v < 30 { Distinct2(v, u); }
    else if v < 40 { Distinct3(v, u); } else if v < 50 { Distinct4(v, u); } else if v < 60 { Distinct5(v, u); }
    else if v < 70 { Distinct6(v, u); } else if v < 80 { Distinct7(v, u); } else if v < 90 { Distinct8(v, u); }
    else if v < 100 { Distinct9(v, u); } else { Distinct10(v, u); }
  }

  predicate ElevenModules(w: Widths)
  {
    && w.b0 + w.s0 + w.b1 + w.s1 + w.b2 + w.s2 == 11
    && w.b0 > 0 && w.s0 > 0 && w.b1 > 0 && w.s1 > 0 && w.b2 > 0 && w.s2 > 0
  }

  lemma {:induction false} Eleven0(v: nat)
    requires 0 <= v < 30
    ensures ElevenModules(Pattern(v))
  {}

  lemma {:induction false} Eleven1(v: nat)
    requires 30 <= v < 60
    ensures ElevenModules(Pattern(v))
  {}

  lemma {:induction false} Eleven2(v: nat)
    requires 60 <= v < 90
    ensures ElevenModules(Pattern(v))
  {}

  lemma {:induction false} Eleven3(v: nat)
    requires 90 <= v < 106
    ensures ElevenModules(Pattern(v))
  {}

  /** Every symbol but the stop is eleven modules wide, and no bar or space is empty. */
  lemma {:induction false} PatternsElevenModules(v: nat)
    requires v <= LAST_SYMBOL
    ensures ElevenModules(Pattern(v))
  {
    if v < 30 { Eleven0(v); } else if v < 60 { Eleven1(v); } else if v < 90 { Eleven2(v); } else { Eleven3(v); }
  }

  // ---------------------------------------------------------------- the table as it is listed

  /** Six widths written as one decimal number. */
  function Figure(w: Widths): nat
  {
    100000 * w.b0 + 10000 * w.s0 + 1000 * w.b1 + 100 * w.s1 + 10 * w.b2 + w.s2
  }

  function PickFigure(k: nat, a0: nat, a1: nat, a2: nat, a3: nat, a4: nat, a5: nat, a6: nat, a7: nat, a8: nat, a9: nat): nat
  {
    if k == 0 then a0 else if k == 1 then a1 else if k == 2 then a2 else if k == 3 then a3 else if k == 4 then a4
    else if k == 5 then a5 else if k == 6 then a6 else if k == 7 then a7 else if k == 8 then a8 else a9
  }

  lemma {:induction false} Listed0(v: nat)
    requires 0 <= v < 10
    ensures Figure(Pattern(v)) ==
      PickFigure(v - 0, 212222, 222122, 222221, 121223, 121322, 131222, 122213, 122312, 132212, 221213)
  {}

  lemma {:induction false} Listed1(v: nat)
    requires 10 <= v < 20
    ensures Figure(Pattern(v)) ==
      PickFigure(v - 10, 221312, 231212, 112232, 122132, 122231, 113222, 123122, 123221, 223211, 221132)
  {}

  lemma {:induction false} Listed2(v: nat)
    requires 20 <= v < 30
    ensures Figure(Pattern(v)) ==
      PickFigure(v - 20, 221231, 213212, 223112, 312131, 311222, 321122, 321221, 312212, 322112, 322211)
  {}

  lemma {:induction false} Listed3(v: nat)
    requires 30 <= v < 40
    ensures Figure(Pattern(v)) ==
      PickFigure(v - 30, 212123, 212321, 232121, 111323, 131123, 131321, 112313, 132113, 132311, 211313)
  {}

  lemma {:induction false} Listed4(v: nat)
    requires 40 <= v < 50
    ensures Figure(Pattern(v)) ==
      PickFigure(v - 40, 231113, 231311, 112133, 112331, 132131, 113123, 113321, 133121, 313121, 211331)
  {}

  lemma {:induction false} Listed5(v: nat)
    requires 50 <= v < 60
    ensures Figure(Pattern(v)) ==
      PickFigure(v - 50, 231131, 213113, 213311, 213131, 311123, 311321, 331121, 312113, 312311, 332111)
  {}

  lemma {:induction false} Listed6(v: nat)
    requires 60 <= v < 70
    ensures Figure(Pattern(v)) ==
      PickFigure(v - 60, 314111, 221411, 431111, 111224, 111422, 121124, 121421, 141122, 141221, 112214)
  {}

  lemma {:induction false} Listed7(v: nat)
    requires 70 <= v < 80
    ensures Figure(Pattern(v)) ==
      PickFigure(v - 70, 112412, 122114, 122411, 142112, 142211, 241211, 221114, 413111, 241112, 134111)
  {}

  lemma {:induction false} Listed8(v: nat)
    requires 80 <= v < 90
    ensures Figure(Pattern(v)) ==
      PickFigure(v - 80, 111242, 121142, 121241, 114212, 124112, 124211, 411212, 421112, 421211, 212141)
  {}

  lemma {:induction false} Listed9(v: nat)
    requires 90 <= v < 100
    ensures Figure(Pattern(v)) ==
      PickFigure(v - 90, 214121, 412121, 111143, 111341, 131141, 114113, 114311, 411113, 411311, 113141)
  {}

  lemma {:induction false} Listed10(v: nat)
    requires 100 <= v < 106
    ensures Figure(Pattern(v)) ==
      PickFigure(v - 100, 114131, 311141, 411131, 211412, 211214, 211232, 0, 0, 0, 0)
  {}
}
