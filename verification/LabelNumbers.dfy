// The measurements of a label, in millimetres.
module LabelNumbers {
  import opened Common
  import opened Millimetres
  import opened LabelGeometry

  // The numbers as they are documented, written out once more without the search.

  /** To the nearest n-th part, halves up. */
  function Nearest(v: real, n: real): real
    requires n > 0.0
  {
    (v * n + 0.5).Floor as real / n
  }

  function Between(v: real, lo: real, hi: real): real { if v < lo then lo else if v > hi then hi else v }

  function ShopMm(f: real, shop: bool): real { if shop then Nearest(f * 1.05 * 1.25, 100.0) else 0.0 }

  function DescMm(f: real, lines: nat): real { Nearest(lines as real * f * 1.3, 100.0) }

  function PriceMm(f: real): real { Nearest(f * 1.75 * 1.12, 100.0) }

  /** Paddings, gaps and rows of text; what is left is for the bars. */
  function TextMm(layout: Layout, shop: bool, lines: nat, f: real): real
  {
    (if layout.A4? then 3.2 else 1.8) + (if shop then 1.2 else 0.8) + ShopMm(f, shop) + DescMm(f, lines) + PriceMm(f) + 3.2
  }

  function MostBar(layout: Layout, height: real): real
  {
    if layout.A4? then 12.0 else Nearest(Between(height * 0.34, 5.0, 14.0), 10.0)
  }

  /** A second line or the shop's name is not worth bars below three fifths of their most. */
  function LeastBar(layout: Layout, height: real, last: bool): real
  {
    if last || MostBar(layout, height) * 0.6 < 5.0 then 5.0 else MostBar(layout, height) * 0.6
  }

  function BarMm(layout: Layout, height: real, shop: bool, lines: nat, f: real): real
  {
    var room := height - TextMm(layout, shop, lines, f);
    var most := MostBar(layout, height);
    ((if room < most then room else most) * 10.0).Floor as real / 10.0
  }

  function LargestFont(layout: Layout, width: real, height: real): real
  {
    if layout.A4? then 2.8
    else Nearest(Between(if height / 10.0 < width / 16.0 then height / 10.0 else width / 16.0, 2.0, 3.2), 10.0)
  }

  predicate ShopAt(p: nat) { p < 2 }

  function LinesAt(p: nat): nat { if p == 0 then 2 else 1 }

  /** At step p, a font of t tenths leaves enough for the bars: 2.2 mm at least, at the last step 2. */
  predicate Enough(layout: Layout, height: real, p: nat, t: int)
  {
    && t >= (if p == 3 then 20 else 22)
    && BarMm(layout, height, ShopAt(p), LinesAt(p), t as real / 10.0) >= LeastBar(layout, height, p == 3)
  }

  // ---------------------------------------------------------------- the two agree

  lemma {:induction false} RoundingAgrees(v: real)
    ensures Round2(v) == Nearest(v, 100.0) && Round1(v) == Nearest(v, 10.0)
  {}

  lemma {:induction false} CapAgrees(layout: Layout, height: real)
    ensures BarCap(layout, height) == MostBar(layout, height)
  {
    RoundingAgrees(Between(height * 0.34, 5.0, 14.0));
    hide Round1, Nearest;
  }

  lemma {:induction false} TargetAgrees(layout: Layout, height: real)
    ensures BarTarget(layout, height) == LeastBar(layout, height, false)
  {
    CapAgrees(layout, height);
    hide BarCap, MostBar;
  }

  lemma {:induction false} TextAgrees(layout: Layout, shop: bool, lines: nat, f: real)
    ensures Fixed(layout, shop, lines, f) == TextMm(layout, shop, lines, f)
    ensures ShopRow(f, shop) == ShopMm(f, shop) && DescRow(f, lines) == DescMm(f, lines) && PriceRow(f) == PriceMm(f)
  {
    RoundingAgrees(f * 1.05 * 1.25);
    RoundingAgrees(lines as real * f * 1.3);
    RoundingAgrees(f * 1.75 * 1.12);
    hide Round2, Nearest;
  }

  lemma {:induction false} BarAgrees(layout: Layout, height: real, shop: bool, lines: nat, f: real)
    ensures BarHeight(layout, height, shop, lines, f) == BarMm(layout, height, shop, lines, f)
  {
    CapAgrees(layout, height);
    TextAgrees(layout, shop, lines, f);
    hide Fixed, TextMm, BarCap, MostBar;
  }

  lemma {:induction false} FontAgrees(layout: Layout, width: real, height: real)
    ensures StartTenths(layout, width, height) as real / 10.0 == LargestFont(layout, width, height)
  {}

  lemma {:induction false} WorksAgrees(layout: Layout, height: real, p: nat, t: int)
    requires p < 4
    ensures Works(layout, height, p, t) <==> Enough(layout, height, p, t)
  {
    var s := StageAt(p, layout, height);
    BarAgrees(layout, height, s.shop, s.lines, Tenths(t));
    TargetAgrees(layout, height);
    hide BarHeight, BarMm, BarTarget;
  }

  lemma {:induction false} BuildIs(layout: Layout, width: real, height: real, modules: nat, p: nat, t: int)
    requires p < 4
    ensures var s := StageAt(p, layout, height);
      var g := Build(layout, width, height, modules, s.shop, s.lines, Tenths(t));
      && g.showShop == ShopAt(p) && g.nameLines == LinesAt(p) && g.fontMm == t as real / 10.0
      && g.barHeightMm == BarMm(layout, height, ShopAt(p), LinesAt(p), t as real / 10.0)
      && g.rows.shop == ShopMm(g.fontMm, g.showShop) && g.rows.desc == DescMm(g.fontMm, g.nameLines)
      && g.rows.price == PriceMm(g.fontMm) && g.rows.code == g.barHeightMm + 3.2
      && g.padTop == (if layout.A4? then 1.6 else 1.0) && g.padBottom == (if layout.A4? then 1.6 else 0.8)
      && g.moduleMm == (if layout.A4? then 0.3 else if 0.375 * modules as real <= width - 1.0 then 0.375 else 0.25)
  {
    var s := StageAt(p, layout, height);
    BarAgrees(layout, height, s.shop, s.lines, Tenths(t));
    TextAgrees(layout, s.shop, s.lines, Tenths(t));
    BarHeightBounds(layout, height, s.shop, s.lines, Tenths(t));
    hide BarHeight, BarMm, Round1, ShopRow, DescRow, PriceRow, ShopMm, DescMm, PriceMm, BarTarget;
  }

  // ---------------------------------------------------------------- what is printed

  /** On a roll the module is three printer dots where the barcode fits with them and two otherwise; on a sheet 0.3 mm. */
  lemma {:induction false} ModuleIs(layout: Layout, width: real, height: real, modules: nat, g: Geometry)
    requires IsBest(layout, width, height, modules, g) && g.fits
    ensures layout.Roll? ==> (g.moduleMm == 0.375 <==> 0.375 * modules as real <= width - 1.0)
    ensures layout.Roll? ==> g.moduleMm == 0.375 || g.moduleMm == 0.25
    ensures layout.A4? ==> g.moduleMm == 0.3
  {
    hide *;
    var p, t := StageOf(layout, width, height, modules, g);
    BuildIs(layout, width, height, modules, p, t);
  }

  /** Every measure of a label that fits follows from its font, its lines and whether the shop's name is shown. */
  lemma {:induction false} MeasuresAre(layout: Layout, width: real, height: real, modules: nat, g: Geometry)
    requires IsBest(layout, width, height, modules, g) && g.fits
    ensures g.rows.shop == ShopMm(g.fontMm, g.showShop) && g.rows.desc == DescMm(g.fontMm, g.nameLines)
    ensures g.rows.price == PriceMm(g.fontMm) && g.rows.code == g.barHeightMm + 3.2
    ensures g.padTop == (if layout.A4? then 1.6 else 1.0) && g.padBottom == (if layout.A4? then 1.6 else 0.8)
    ensures g.barHeightMm == BarMm(layout, height, g.showShop, g.nameLines, g.fontMm)
  {
    hide *;
    var p, t := StageOf(layout, width, height, modules, g);
    BuildIs(layout, width, height, modules, p, t);
  }

  /** The layout is the first, in order of preference and from the largest font down, that leaves enough for the bars. */
  lemma {:induction false} FirstThatWorks(layout: Layout, width: real, height: real, modules: nat, g: Geometry)
    returns (p: nat, t: int)
    requires IsBest(layout, width, height, modules, g) && g.fits
    ensures p < 4 && g.showShop == ShopAt(p) && g.nameLines == LinesAt(p) && g.fontMm == t as real / 10.0
    ensures Enough(layout, height, p, t) && g.fontMm <= LargestFont(layout, width, height)
    ensures forall q: nat, u: int | q < p && u as real / 10.0 <= LargestFont(layout, width, height) :: !Enough(layout, height, q, u)
    ensures forall u | t < u && u as real / 10.0 <= LargestFont(layout, width, height) :: !Enough(layout, height, p, u)
  {
    hide *;
    p, t := StageOf(layout, width, height, modules, g);
    BuildIs(layout, width, height, modules, p, t);
    WorksAgrees(layout, height, p, t);
    FontAgrees(layout, width, height);
    TenthsOrder(t, StartTenths(layout, width, height));
    forall q: nat, u: int | q < p && u as real / 10.0 <= LargestFont(layout, width, height) ensures !Enough(layout, height, q, u) {
      TenthsOrder(u, StartTenths(layout, width, height));
      WorksAgrees(layout, height, q, u);
      EarlierFails(layout, width, height, p, t, q, u);
    }
    forall u | t < u && u as real / 10.0 <= LargestFont(layout, width, height) ensures !Enough(layout, height, p, u) {
      TenthsOrder(u, StartTenths(layout, width, height));
      WorksAgrees(layout, height, p, u);
      LargerFails(layout, width, height, p, t, u);
    }
  }

  lemma {:induction false} TenthsOrder(t: int, u: int)
    ensures t as real / 10.0 <= u as real / 10.0 <==> t <= u
  {}

  lemma {:induction false} EarlierFails(layout: Layout, width: real, height: real, p: nat, t: int, q: nat, u: int)
    requires p < 4 && q < p && u <= StartTenths(layout, width, height) && NothingBefore(layout, width, height, p, t)
    ensures !Works(layout, height, q, u)
  {
    hide Works, StartTenths;
  }

  lemma {:induction false} LargerFails(layout: Layout, width: real, height: real, p: nat, t: int, u: int)
    requires p < 4 && t < u <= StartTenths(layout, width, height) && NothingBefore(layout, width, height, p, t)
    ensures !Works(layout, height, p, u)
  {
    hide Works, StartTenths;
  }

  /** A label that does not fit is described with the shortest bars and the smallest font, so that the sheet can be drawn. */
  lemma {:induction false} RefusedIs(layout: Layout, width: real, height: real, modules: nat, g: Geometry)
    requires IsBest(layout, width, height, modules, g) && !g.fits
    ensures g.barHeightMm == 5.0 && g.fontMm == 2.0 && !g.showShop && g.nameLines == 1
    ensures g.rows == Rows(0.0, 8.2, 2.6, 3.92)
  {
    RefusalOnly(layout, width, height, modules, g);
    RefusedRows();
    hide IsBest, ModuleFor, DescRow, PriceRow, ShopRow;
  }

  lemma {:induction false} RefusedRows()
    ensures ShopRow(2.0, false) == 0.0 && DescRow(2.0, 1) == 2.6 && PriceRow(2.0) == 3.92
  {}
}
