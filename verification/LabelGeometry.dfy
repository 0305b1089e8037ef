// The label's height budget and the search for a layout.
module LabelGeometry {
  import opened Common
  import opened Millimetres

  datatype Layout = A4 | Roll
  datatype Rows = Rows(shop: real, code: real, desc: real, price: real)
  datatype Geometry = Geometry(moduleMm: real, barHeightMm: real, fontMm: real, showShop: bool, scanRisk: bool,
                               nameLines: nat, rows: Rows, padTop: real, padBottom: real, fits: bool)

  const CODE_PAD_X := 0.5
  const MIN_BAR := 5.0
  const BARCODE_TEXT := 3.2
  const ROW_GAP := 0.4
  const MIN_ROLL_MODULE := 0.25
  const ROLL_MIN_WIDTH := 30.0
  const ROLL_MIN_HEIGHT := 20.0

  // ---------------------------------------------------------------- rounding

  /** `Math.round` */
  function Round(v: real): int { (v + 0.5).Floor }

  function Round1(v: real): real { Round(v * 10.0) as real / 10.0 }

  function Round2(v: real): real { Round(v * 100.0) as real / 100.0 }

  function Min(a: real, b: real): real { if a <= b then a else b }

  function Max(a: real, b: real): real { if a >= b then a else b }

  function Clamp(v: real, lo: real, hi: real): real { Min(hi, Max(lo, v)) }

  function Tenths(t: int): real { t as real / 10.0 }

  lemma {:induction false} RoundWhole(t: int)
    ensures Round(t as real) == t
  {
  }

  lemma {:induction false} RoundTenths(t: int)
    ensures Round1(Tenths(t)) == Tenths(t) && Round1(Tenths(t) - 0.1) == Tenths(t - 1)
  {
    hide Round;
    RoundWhole(t);
    RoundWhole(t - 1);
  }

  lemma {:induction false} Round2Monotone(a: real, b: real)
    requires a <= b
    ensures Round2(a) <= Round2(b)
  {
    FloorMonotone(a * 100.0 + 0.5, b * 100.0 + 0.5);
  }

  // ---------------------------------------------------------------- one candidate layout

  function PadTop(layout: Layout): real { if layout.A4? then 1.6 else 1.0 }

  function PadBottom(layout: Layout): real { if layout.A4? then 1.6 else 0.8 }

  function Usable(width: real): real { width - 2.0 * CODE_PAD_X }

  function ModuleFor(layout: Layout, width: real, modules: nat): real
  {
    if layout.A4? then 0.3
    else if 0.375 * modules as real <= Usable(width) then 0.375
    else if 0.25 * modules as real <= Usable(width) then 0.25
    else MIN_ROLL_MODULE
  }

  predicate BarcodeFitsWidth(modules: nat, width: real)
  {
    MIN_ROLL_MODULE * modules as real <= width - 2.0 * CODE_PAD_X + EPS
  }

  function BarCap(layout: Layout, height: real): real
  {
    if layout.A4? then 12.0 else Round1(Clamp(height * 0.34, MIN_BAR, 14.0))
  }

  function BarTarget(layout: Layout, height: real): real
  {
    Max(MIN_BAR, BarCap(layout, height) * 0.6)
  }

  function StartFont(layout: Layout, width: real, height: real): real
  {
    if layout.A4? then 2.8 else Round1(Clamp(Min(height / 10.0, width / 16.0), 2.0, 3.2))
  }

  function ShopRow(f: real, shop: bool): real { if shop then Round2(f * 1.05 * 1.25) else 0.0 }

  function DescRow(f: real, lines: nat): real { Round2(lines as real * f * 1.3) }

  function PriceRow(f: real): real { Round2(f * 1.75 * 1.12) }

  function Gaps(shop: bool): real { ROW_GAP * ((if shop then 4 else 3) - 1) as real }

  /** Everything but the bars. */
  function Fixed(layout: Layout, shop: bool, lines: nat, f: real): real
  {
    PadTop(layout) + PadBottom(layout) + Gaps(shop) + ShopRow(f, shop) + DescRow(f, lines) + PriceRow(f) + BARCODE_TEXT
  }

  function BarHeight(layout: Layout, height: real, shop: bool, lines: nat, f: real): real
  {
    (Min(BarCap(layout, height), height - Fixed(layout, shop, lines, f)) * 10.0).Floor as real / 10.0
  }

  function Build(layout: Layout, width: real, height: real, modules: nat, shop: bool, lines: nat, f: real): Geometry
  {
    var bar := BarHeight(layout, height, shop, lines, f);
    var moduleMm := ModuleFor(layout, width, modules);
    Geometry(moduleMm, bar, f, shop, moduleMm < 0.25, lines,
             Rows(ShopRow(f, shop), Round1(bar + BARCODE_TEXT), DescRow(f, lines), PriceRow(f)),
             PadTop(layout), PadBottom(layout), true)
  }

  /** What is returned for a label that cannot be made. */
  function Refusal(layout: Layout, width: real, modules: nat): Geometry
  {
    var moduleMm := ModuleFor(layout, width, modules);
    Geometry(moduleMm, MIN_BAR, 2.0, false, moduleMm < 0.25, 1,
             Rows(ShopRow(2.0, false), MIN_BAR + BARCODE_TEXT, DescRow(2.0, 1), PriceRow(2.0)),
             PadTop(layout), PadBottom(layout), false)
  }

  // ---------------------------------------------------------------- the order of preference

  /** Stages of the search: shop name and two lines, one line, no shop name, and last the shortest bars. */
  datatype Stage = Stage(shop: bool, lines: nat, minBar: real, minTenths: int)

  function StageAt(p: nat, layout: Layout, height: real): Stage
    requires p < 4
  {
    if p == 0 then Stage(true, 2, BarTarget(layout, height), 22)
    else if p == 1 then Stage(true, 1, BarTarget(layout, height), 22)
    else if p == 2 then Stage(false, 1, BarTarget(layout, height), 22)
    else Stage(false, 1, MIN_BAR, 20)
  }

  predicate Works(layout: Layout, height: real, p: nat, t: int)
    requires p < 4
  {
    var s := StageAt(p, layout, height);
    t >= s.minTenths && BarHeight(layout, height, s.shop, s.lines, Tenths(t)) >= s.minBar
  }

  predicate Admitted(layout: Layout, width: real, height: real, modules: nat)
  {
    if layout.A4? then 0.3 * modules as real <= Usable(width)
    else BarcodeFitsWidth(modules, width) && width >= ROLL_MIN_WIDTH && height >= ROLL_MIN_HEIGHT
  }

  function StartTenths(layout: Layout, width: real, height: real): int
  {
    if layout.A4? then 28 else Round(Clamp(Min(height / 10.0, width / 16.0), 2.0, 3.2) * 10.0)
  }

  /** No earlier stage works at any font size, nor does this one at a larger font size. */
  ghost predicate NothingBefore(layout: Layout, width: real, height: real, p: nat, t: int)
    requires p <= 4
  {
    && (forall q, u | 0 <= q < p && u <= StartTenths(layout, width, height) :: !Works(layout, height, q, u))
    && (p < 4 ==> forall u | t < u <= StartTenths(layout, width, height) :: !Works(layout, height, p, u))
  }

  /** The first layout that works, in order of preference; refusal when none does or the label is not admitted. */
  ghost predicate IsBest(layout: Layout, width: real, height: real, modules: nat, g: Geometry)
  {
    if Admitted(layout, width, height, modules) && g.fits then
      exists p, t :: 0 <= p < 4 && t <= StartTenths(layout, width, height) && Works(layout, height, p, t)
        && NothingBefore(layout, width, height, p, t) && var s := StageAt(p, layout, height);
           g == Build(layout, width, height, modules, s.shop, s.lines, Tenths(t))
    else
      && g == Refusal(layout, width, modules)
      && (Admitted(layout, width, height, modules) ==> NothingBefore(layout, width, height, 4, 0))
  }

  method Attempt(layout: Layout, width: real, height: real, modules: nat, shop: bool, lines: nat, f: real, minBar: real)
    returns (g: Option<Geometry>)
    ensures g == if BarHeight(layout, height, shop, lines, f) < minBar then None
                 else Some(Build(layout, width, height, modules, shop, lines, f))
  {
    var shopMm := if shop then Round2(f * 1.05 * 1.25) else 0.0;
    var desc, price := Round2(lines as real * f * 1.3), Round2(f * 1.75 * 1.12);
    var visible := if shop then 4 else 3;
    var fixed := PadTop(layout) + PadBottom(layout) + ROW_GAP * (visible - 1) as real + shopMm + desc + price + BARCODE_TEXT;
    var bar := (Min(BarCap(layout, height), height - fixed) * 10.0).Floor as real / 10.0;
    if bar < minBar {
      return None;
    }
    var moduleMm := ModuleFor(layout, width, modules);
    g := Some(Geometry(moduleMm, bar, f, shop, moduleMm < 0.25, lines,
                       Rows(shopMm, Round1(bar + BARCODE_TEXT), desc, price), PadTop(layout), PadBottom(layout), true));
  }

  /** One stage: from the largest font down in steps of a tenth. */
  method SearchStage(layout: Layout, width: real, height: real, modules: nat, p: nat, start: real)
    returns (g: Option<Geometry>, ghost t: int)
    requires p < 4 && start == Tenths(StartTenths(layout, width, height))
    ensures g.None? ==> forall u | u <= StartTenths(layout, width, height) :: !Works(layout, height, p, u)
    ensures g.Some? ==>
      && t <= StartTenths(layout, width, height) && Works(layout, height, p, t)
      && (forall u | t < u <= StartTenths(layout, width, height) :: !Works(layout, height, p, u))
      && var s := StageAt(p, layout, height);
         g.value == Build(layout, width, height, modules, s.shop, s.lines, Tenths(t))
  {
    hide BarHeight, Build, Round1, StartTenths, BarTarget, ModuleFor;
    var s := StageAt(p, layout, height);
    var f := start;
    t := StartTenths(layout, width, height);
    while f >= (s.minTenths as real / 10.0) - EPS
      invariant f == Tenths(t) && t <= StartTenths(layout, width, height)
      invariant forall u | t < u <= StartTenths(layout, width, height) :: !Works(layout, height, p, u)
      decreases t - 19
    {
      g := Attempt(layout, width, height, modules, s.shop, s.lines, f, s.minBar);
      if g.Some? {
        return;
      }
      RoundTenths(t);
      f := Round1(f - 0.1);
      t := t - 1;
    }
    g := None;
  }

  method FindGeometry(layout: Layout, width: real, height: real, modules: nat) returns (g: Geometry)
    ensures IsBest(layout, width, height, modules, g)
  {
    hide BarHeight, Build, Round1, StartTenths, BarTarget, ModuleFor, Works, StageAt, Admitted, StartFont, Refusal;
    if Admitted(layout, width, height, modules) {
      StartIsTenths(layout, width, height);
      for p := 0 to 4
        invariant NothingBefore(layout, width, height, p, StartTenths(layout, width, height))
      {
        var found, t := SearchStage(layout, width, height, modules, p, StartFont(layout, width, height));
        if found.Some? {
          assert NothingBefore(layout, width, height, p, t);
          BuildFits(layout, width, height, modules, p, t);
          return found.value;
        }
      }
    }
    RefusalFails(layout, width, modules);
    return Refusal(layout, width, modules);
  }

  lemma {:induction false} BuildFits(layout: Layout, width: real, height: real, modules: nat, p: nat, t: int)
    requires p < 4
    ensures var s := StageAt(p, layout, height);
      Build(layout, width, height, modules, s.shop, s.lines, Tenths(t)).fits
  {}

  lemma {:induction false} RefusalFails(layout: Layout, width: real, modules: nat)
    ensures !Refusal(layout, width, modules).fits
  {}

  lemma {:induction false} StartIsTenths(layout: Layout, width: real, height: real)
    ensures StartFont(layout, width, height) == Tenths(StartTenths(layout, width, height))
    ensures 20 <= StartTenths(layout, width, height) <= 32
  {}

  // ---------------------------------------------------------------- when a label fits

  lemma {:induction false} ShopMonotone(shop: bool, more: bool, f: real, g: real)
    requires (shop ==> more) && 0.0 <= f <= g
    ensures ShopRow(f, shop) <= ShopRow(g, more)
  {
    Round2Monotone(f * 1.05 * 1.25, g * 1.05 * 1.25);
    Round2Monotone(0.0, g * 1.05 * 1.25);
    RoundWhole(0);
  }

  /** Less text in a smaller font leaves more room. */
  lemma {:induction false} FixedMonotone(layout: Layout, shop: bool, more: bool, lines: nat, moreLines: nat, f: real,
                                         g: real)
    requires (shop ==> more) && lines <= moreLines && 0.0 <= f <= g
    ensures Fixed(layout, shop, lines, f) <= Fixed(layout, more, moreLines, g)
  {
    hide Round2;
    ShopMonotone(shop, more, f, g);
    Round2Monotone(lines as real * f * 1.3, moreLines as real * g * 1.3);
    Round2Monotone(f * 1.75 * 1.12, g * 1.75 * 1.12);
  }

  lemma {:induction false} BarMonotone(layout: Layout, height: real, shop: bool, more: bool, lines: nat, moreLines: nat,
                                       f: real, g: real)
    requires (shop ==> more) && lines <= moreLines && 0.0 <= f <= g
    ensures BarHeight(layout, height, shop, lines, f) >= BarHeight(layout, height, more, moreLines, g)
  {
    hide Fixed, BarCap;
    FixedMonotone(layout, shop, more, lines, moreLines, f, g);
    FloorMonotone(Min(BarCap(layout, height), height - Fixed(layout, more, moreLines, g)) * 10.0,
                  Min(BarCap(layout, height), height - Fixed(layout, shop, lines, f)) * 10.0);
  }

  /** If any stage works at any size, so does the last stage at the smallest size. */
  lemma {:induction false} LastResort(layout: Layout, height: real, p: nat, t: int)
    requires p < 4 && Works(layout, height, p, t)
    ensures Works(layout, height, 3, 20)
  {
    hide BarHeight, BarCap;
    var s := StageAt(p, layout, height);
    BarMonotone(layout, height, false, s.shop, 1, s.lines, Tenths(20), Tenths(t));
  }

  lemma {:induction false} SmallestFixed(layout: Layout)
    ensures Fixed(layout, false, 1, Tenths(20)) == if layout.A4? then 13.72 else 12.32
  {
  }

  lemma {:induction false} CapAtLeastFive(layout: Layout, height: real)
    ensures BarCap(layout, height) >= 5.0
  {
    if layout.Roll? {
      FloorMonotone(50.5, Clamp(height * 0.34, MIN_BAR, 14.0) * 10.0 + 0.5);
    }
  }

  lemma {:induction false} LastResortIff(layout: Layout, height: real)
    ensures Works(layout, height, 3, 20) <==> height >= (if layout.A4? then 18.72 else 17.32)
  {
    hide BarCap, Fixed;
    SmallestFixed(layout);
    CapAtLeastFive(layout, height);
  }

  lemma {:induction false} FitsMeansLastResort(layout: Layout, width: real, height: real, modules: nat, g: Geometry)
    requires IsBest(layout, width, height, modules, g)
    ensures g.fits <==> Admitted(layout, width, height, modules) && Works(layout, height, 3, 20)
  {
    hide Works, BarHeight, ModuleFor, Round1, Round2;
    StartIsTenths(layout, width, height);
    if g.fits {
      if !Admitted(layout, width, height, modules) {
        RefusalFails(layout, width, modules);
      } else {
        var p, t :| 0 <= p < 4 && t <= StartTenths(layout, width, height) && Works(layout, height, p, t)
          && NothingBefore(layout, width, height, p, t);
        LastResort(layout, height, p, t);
      }
    }
  }

  /**
   * A roll label is made exactly when it is wide and tall enough and the barcode fits at a quarter millimetre: the
   * search never comes back empty-handed.
   */
  lemma {:induction false} RollFitsIff(width: real, height: real, modules: nat, g: Geometry)
    requires IsBest(Roll, width, height, modules, g)
    ensures g.fits <==> width >= 30.0 && height >= 20.0 && 0.25 * modules as real <= width - 1.0 + EPS
  {
    hide IsBest, Works;
    FitsMeansLastResort(Roll, width, height, modules, g);
    LastResortIff(Roll, height);
  }

  /** On a sheet nothing but the barcode's width and this height decides. */
  lemma {:induction false} SheetFitsIff(width: real, height: real, modules: nat, g: Geometry)
    requires IsBest(A4, width, height, modules, g)
    ensures g.fits <==> 0.3 * modules as real <= width - 1.0 && height >= 18.72
  {
    hide IsBest, Works;
    FitsMeansLastResort(A4, width, height, modules, g);
    LastResortIff(A4, height);
  }

  // ---------------------------------------------------------------- what a label that fits keeps

  lemma {:induction false} BarHeightBounds(layout: Layout, height: real, shop: bool, lines: nat, f: real)
    ensures var bar := BarHeight(layout, height, shop, lines, f);
      bar <= BarCap(layout, height) && bar + Fixed(layout, shop, lines, f) <= height
      && Round1(bar + BARCODE_TEXT) == bar + BARCODE_TEXT
  {
    hide BarCap, Fixed, Round1;
    var n := (Min(BarCap(layout, height), height - Fixed(layout, shop, lines, f)) * 10.0).Floor;
    RoundTenths(n + 32);
    assert Tenths(n) + BARCODE_TEXT == Tenths(n + 32);
  }

  function Height(g: Geometry): real
  {
    g.padTop + g.padBottom + Gaps(g.showShop) + g.rows.shop + g.rows.code + g.rows.desc + g.rows.price
  }

  lemma {:induction false} ModuleFits(layout: Layout, width: real, height: real, modules: nat)
    requires Admitted(layout, width, height, modules)
    ensures var m := ModuleFor(layout, width, modules);
      m >= 0.25 && m * modules as real <= width - 1.0 + EPS
      && (m * modules as real > width - 1.0 <==> layout.Roll? && 0.25 * modules as real > width - 1.0)
  {}

  lemma {:induction false} StageOf(layout: Layout, width: real, height: real, modules: nat, g: Geometry)
    returns (p: nat, t: int)
    requires IsBest(layout, width, height, modules, g) && g.fits
    ensures Admitted(layout, width, height, modules)
    ensures p < 4 && t <= StartTenths(layout, width, height) && Works(layout, height, p, t)
    ensures NothingBefore(layout, width, height, p, t)
    ensures var s := StageAt(p, layout, height);
      g == Build(layout, width, height, modules, s.shop, s.lines, Tenths(t))
  {
    hide Build, Works, NothingBefore, Admitted;
    RefusalFails(layout, width, modules);
    p, t :| 0 <= p < 4 && t <= StartTenths(layout, width, height) && Works(layout, height, p, t)
      && NothingBefore(layout, width, height, p, t) && var s := StageAt(p, layout, height);
         g == Build(layout, width, height, modules, s.shop, s.lines, Tenths(t));
  }

  /** There is only one best layout. */
  lemma {:induction false} BestUnique(layout: Layout, width: real, height: real, modules: nat, g: Geometry, h: Geometry)
    requires IsBest(layout, width, height, modules, g) && IsBest(layout, width, height, modules, h)
    ensures g == h
  {
    hide Build, Works, Admitted, IsBest, StageAt, Refusal;
    FitsMeansLastResort(layout, width, height, modules, g);
    FitsMeansLastResort(layout, width, height, modules, h);
    if g.fits {
      var p, t := StageOf(layout, width, height, modules, g);
      var q, u := StageOf(layout, width, height, modules, h);
      assert p == q && t == u;
    } else {
      RefusalOnly(layout, width, height, modules, g);
      RefusalOnly(layout, width, height, modules, h);
    }
  }

  lemma {:induction false} RefusalOnly(layout: Layout, width: real, height: real, modules: nat, g: Geometry)
    requires IsBest(layout, width, height, modules, g) && !g.fits
    ensures g == Refusal(layout, width, modules)
  {
    hide Refusal, Admitted, NothingBefore, Works, Build;
  }

  /**
   * The rows, paddings and gaps of a label that fits never exceed its height, the bars never go below five
   * millimetres, and the barcode with its quiet zones stays inside the padding (up to the tolerance of the check).
   */
  lemma {:induction false} FitsWithin(layout: Layout, width: real, height: real, modules: nat, g: Geometry)
    requires IsBest(layout, width, height, modules, g) && g.fits
    ensures Height(g) <= height && g.rows.code == g.barHeightMm + 3.2
    ensures 5.0 <= g.barHeightMm <= BarCap(layout, height) && g.fontMm >= 2.0
    ensures g.moduleMm * modules as real <= width - 1.0 + EPS && g.moduleMm >= 0.25 && !g.scanRisk
    ensures g.moduleMm * modules as real > width - 1.0 <==> layout.Roll? && 0.25 * modules as real > width - 1.0
  {
    hide *;
    var p, t := StageOf(layout, width, height, modules, g);
    BuiltWithin(layout, width, height, modules, p, t);
    BuiltModule(layout, width, height, modules, p, t);
  }

  /** The tolerance can be used up: a roll on which the barcode is a billionth of a millimetre too wide still fits. */
  lemma {:induction false} WiderByTolerance(height: real, g: Geometry)
    requires height >= 20.0 && IsBest(Roll, 30.25 - EPS, height, 117, g)
    ensures g.fits && g.moduleMm * 117.0 == 30.25 - EPS - 1.0 + EPS > 30.25 - EPS - 1.0
  {
    hide IsBest, ModuleFor;
    RollFitsIff(30.25 - EPS, height, 117, g);
    FitsWithin(Roll, 30.25 - EPS, height, 117, g);
  }

  /** On a roll whose width is in whole quarters of a millimetre it never is. */
  lemma {:induction false} QuarterWidthsKeepInside(quarters: int, height: real, modules: nat, g: Geometry)
    requires IsBest(Roll, quarters as real / 4.0, height, modules, g) && g.fits
    ensures g.moduleMm * modules as real <= quarters as real / 4.0 - 1.0
  {
    hide IsBest;
    var width := quarters as real / 4.0;
    FitsWithin(Roll, width, height, modules, g);
    RollFitsIff(width, height, modules, g);
    QuarterGap(quarters, modules);
  }

  lemma {:induction false} QuarterGap(quarters: int, modules: nat)
    requires 0.25 * modules as real <= quarters as real / 4.0 - 1.0 + EPS
    ensures 0.25 * modules as real <= quarters as real / 4.0 - 1.0
  {
    assert modules as real <= (quarters - 4) as real + 4.0 * EPS;
    assert modules <= quarters - 4;
  }

  lemma {:induction false} BuiltWithin(layout: Layout, width: real, height: real, modules: nat, p: nat, t: int)
    requires p < 4 && Works(layout, height, p, t)
    ensures var s := StageAt(p, layout, height);
      var g := Build(layout, width, height, modules, s.shop, s.lines, Tenths(t));
      && Height(g) <= height && g.rows.code == g.barHeightMm + 3.2
      && 5.0 <= g.barHeightMm <= BarCap(layout, height) && g.fontMm >= 2.0
  {
    hide BarHeight, ModuleFor, Round1, Round2, BarCap;
    var s := StageAt(p, layout, height);
    BarHeightBounds(layout, height, s.shop, s.lines, Tenths(t));
  }

  lemma {:induction false} BuiltModule(layout: Layout, width: real, height: real, modules: nat, p: nat, t: int)
    requires p < 4 && Admitted(layout, width, height, modules)
    ensures var s := StageAt(p, layout, height);
      var g := Build(layout, width, height, modules, s.shop, s.lines, Tenths(t));
      && g.moduleMm * modules as real <= width - 1.0 + EPS && g.moduleMm >= 0.25 && !g.scanRisk
      && (g.moduleMm * modules as real > width - 1.0 <==> layout.Roll? && 0.25 * modules as real > width - 1.0)
  {
    hide BarHeight, ModuleFor, Round1, Round2, BarCap, Admitted;
    ModuleFits(layout, width, height, modules);
  }

  // ---------------------------------------------------------------- the width the user is told

  function Ceil(v: real): int { -((-v).Floor) }

  function MinRollWidthFor(modules: nat): int
  {
    var w := Ceil(MIN_ROLL_MODULE * modules as real + 2.0 * CODE_PAD_X);
    if w > 30 then w else 30
  }

  /** In whole millimetres, the width named in the refusal is exactly the least one that works. */
  lemma {:induction false} MinRollWidthExact(width: int, height: real, modules: nat, g: Geometry)
    requires IsBest(Roll, width as real, height, modules, g) && height >= 20.0
    ensures g.fits <==> width >= MinRollWidthFor(modules)
  {
    hide IsBest;
    RollFitsIff(width as real, height, modules, g);
    QuarterSteps(width, modules);
  }

  lemma {:induction false} QuarterSteps(width: int, modules: nat)
    ensures 0.25 * modules as real <= width as real - 1.0 + EPS
       <==> width >= Ceil(MIN_ROLL_MODULE * modules as real + 2.0 * CODE_PAD_X)
  {
    var need := 0.25 * modules as real + 1.0;
    assert need * 4.0 == (modules + 4) as real;
    var c := Ceil(need);
    assert (c - 1) as real < need <= c as real;
    if width < c {
      assert 4 * width < modules + 4;
      assert (4 * width + 1) as real <= (modules + 4) as real;
    }
  }
}
