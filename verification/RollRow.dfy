// Labels side by side: may the row be printed, what goes where?
module RollRow {
  import opened Common
  import opened Millimetres
  import opened Powers

  /** Numbers as the caller sends them; nothing says yet that the two counts are whole. */
  datatype Row = Row(columns: real, gapMm: real, mediaWidthMm: real, offsetXMm: real, startSlot: real)

  datatype Problem =
    | ColumnsOutOfRange | StartSlotOutOfRange | GapOutOfRange | OffsetOutOfRange | MediaOutOfRange
    | WiderThanPrinter | WiderThanMedia | OffTheMedia | OffTheWindow

  const PRINTABLE_MAX := 104.0
  const MEDIA_MIN := 15.0
  const MEDIA_MAX := 118.0
  const MAX_COLUMNS := 4.0
  const MAX_GAP := 20.0
  const MAX_OFFSET := 10.0

  // ---------------------------------------------------------------- where the columns lie

  predicate Whole(v: real) { v == v.Floor as real }

  function Round3(v: real): real { (v * 1000.0 + 0.5).Floor as real / 1000.0 }

  function Pitch(width: real, row: Row): real { width + row.gapMm }

  function Span(width: real, row: Row): real { row.columns * width + (row.columns - 1.0) * row.gapMm }

  function Start(width: real, row: Row): real { (row.mediaWidthMm - Span(width, row)) / 2.0 + row.offsetXMm }

  function Edge(start: real, pitch: real, i: int): real { start + i as real * pitch }

  /** Left edge of column i, counted from 0. */
  function Left(width: real, row: Row, i: int): real { Round3(Edge(Start(width, row), Pitch(width, row), i)) }

  function Columns(row: Row): int { row.columns.Floor }

  function Slots(width: real, row: Row): (r: seq<real>)
    requires Columns(row) >= 0
    ensures |r| == Columns(row) && forall i :: 0 <= i < |r| ==> r[i] == Left(width, row, i)
  {
    seq(Columns(row), i => Left(width, row, i))
  }

  function Margin(media: real): real
  {
    if media > PRINTABLE_MAX then (media - PRINTABLE_MAX) / 2.0 else 0.0
  }

  predicate CountsInRange(row: Row)
  {
    && Whole(row.columns) && 1.0 <= row.columns <= MAX_COLUMNS
    && Whole(row.startSlot) && 1.0 <= row.startSlot <= row.columns
  }

  function RollRowProblem(width: real, row: Row): Option<Problem>
  {
    if !Whole(row.columns) || row.columns < 1.0 || row.columns > MAX_COLUMNS then Some(ColumnsOutOfRange)
    else if !Whole(row.startSlot) || row.startSlot < 1.0 || row.startSlot > row.columns then Some(StartSlotOutOfRange)
    else if row.gapMm < 0.0 || row.gapMm > MAX_GAP then Some(GapOutOfRange)
    else if row.offsetXMm > MAX_OFFSET || -row.offsetXMm > MAX_OFFSET then Some(OffsetOutOfRange)
    else if row.mediaWidthMm < MEDIA_MIN || row.mediaWidthMm > MEDIA_MAX then Some(MediaOutOfRange)
    else
      var span, first, last := Round3(Span(width, row)), Left(width, row, 0), Left(width, row, Columns(row) - 1);
      var lo := Margin(row.mediaWidthMm);
      var hi := row.mediaWidthMm - lo;
      if span > PRINTABLE_MAX + EPS then Some(WiderThanPrinter)
      else if span > row.mediaWidthMm + EPS then Some(WiderThanMedia)
      else if first < -EPS || last + width > row.mediaWidthMm + EPS then Some(OffTheMedia)
      else if first < lo - EPS || last + width > hi + EPS then Some(OffTheWindow)
      else None
  }

  lemma {:induction false} Round3Monotone(a: real, b: real)
    requires a <= b
    ensures Round3(a) <= Round3(b)
  {
    FloorMonotone(a * 1000.0 + 0.5, b * 1000.0 + 0.5);
  }

  lemma {:induction false} EdgeMonotone(start: real, pitch: real, i: int, j: int)
    requires i <= j
    ensures pitch >= 0.0 ==> Edge(start, pitch, i) <= Edge(start, pitch, j)
    ensures pitch <= 0.0 ==> Edge(start, pitch, j) <= Edge(start, pitch, i)
  {
    var n := j - i;
    assert Edge(start, pitch, j) == Edge(start, pitch, i) + n as real * pitch;
    if pitch >= 0.0 { assert n as real * pitch >= 0.0; }
    if pitch <= 0.0 { assert n as real * pitch <= 0.0; }
  }

  lemma {:induction false} LeftMonotone(width: real, row: Row, i: int, j: int)
    requires i <= j
    ensures Pitch(width, row) >= 0.0 ==> Left(width, row, i) <= Left(width, row, j)
    ensures Pitch(width, row) <= 0.0 ==> Left(width, row, j) <= Left(width, row, i)
  {
    hide Round3, Start, Pitch, Edge;
    var p, s := Pitch(width, row), Start(width, row);
    EdgeMonotone(s, p, i, j);
    if p >= 0.0 { Round3Monotone(Edge(s, p, i), Edge(s, p, j)); }
    if p <= 0.0 { Round3Monotone(Edge(s, p, j), Edge(s, p, i)); }
  }

  // ---------------------------------------------------------------- every column is on the paper and under the head

  /** Column i lies inside the liner and inside the band the print head reaches, up to the check's tolerance. */
  predicate Inside(width: real, row: Row, i: int)
  {
    var left, lo := Left(width, row, i), Margin(row.mediaWidthMm);
    && -EPS <= left && left + width <= row.mediaWidthMm + EPS
    && lo - EPS <= left && left + width <= row.mediaWidthMm - lo + EPS
  }

  ghost predicate AllInside(width: real, row: Row)
  {
    forall i :: 0 <= i < Columns(row) ==> Inside(width, row, i)
  }

  lemma {:induction false} ColumnInside(width: real, row: Row, i: int)
    requires RollRowProblem(width, row).None? && 0 <= i < Columns(row)
    requires Pitch(width, row) >= 0.0 || (Inside(width, row, 0) && Inside(width, row, Columns(row) - 1))
    ensures Inside(width, row, i)
  {
    hide Left, Round3, Span, Whole, Pitch;
    LeftMonotone(width, row, 0, i);
    LeftMonotone(width, row, i, Columns(row) - 1);
  }

  /** What the check does not look at: the first column's right edge and the last one's left edge. */
  predicate InnerEdges(width: real, row: Row)
  {
    && Left(width, row, 0) + width <= row.mediaWidthMm - Margin(row.mediaWidthMm) + EPS
    && Left(width, row, Columns(row) - 1) >= Margin(row.mediaWidthMm) - EPS
  }

  lemma {:induction false} OuterColumnsInsideIff(width: real, row: Row)
    requires RollRowProblem(width, row).None?
    ensures Columns(row) >= 1
    ensures Inside(width, row, 0) && Inside(width, row, Columns(row) - 1) <==> InnerEdges(width, row)
  {
    hide Left, Round3, Span;
  }

  /**
   * The check looks at the first column's left edge and the last one's right edge. That is enough for every column
   * exactly when columns run to the right, or when the two edges it leaves out are in place.
   */
  lemma {:induction false} AdmittedMeansAllInsideIff(width: real, row: Row)
    requires RollRowProblem(width, row).None?
    ensures AllInside(width, row) <==> width + row.gapMm >= 0.0 || InnerEdges(width, row)
  {
    hide Inside, InnerEdges;
    OuterColumnsInsideIff(width, row);
    if width + row.gapMm >= 0.0 || InnerEdges(width, row) {
      hide RollRowProblem;
      forall i | 0 <= i < Columns(row) ensures Inside(width, row, i) {
        ColumnInside(width, row, i);
      }
    }
  }

  /** Every label width there is: an admitted row has all its columns on the paper and under the head. */
  lemma {:induction false} AdmittedRowPrints(width: real, row: Row, i: int)
    requires RollRowProblem(width, row).None? && width >= 0.0 && 0 <= i < |Slots(width, row)|
    ensures Inside(width, row, i) && Slots(width, row)[i] == Left(width, row, i)
  {
    hide Inside;
    assert row.gapMm >= 0.0;
    ColumnInside(width, row, i);
  }

  /** Conversely the check refuses only what it must: a row in range with both ends inside is admitted. */
  lemma {:induction false} RefusedOnlyIf(width: real, row: Row)
    requires RollRowProblem(width, row).Some? && CountsInRange(row) && width >= 0.0
    requires 0.0 <= row.gapMm <= MAX_GAP && -MAX_OFFSET <= row.offsetXMm <= MAX_OFFSET
    requires MEDIA_MIN <= row.mediaWidthMm <= MEDIA_MAX
    requires Round3(Span(width, row)) <= PRINTABLE_MAX + EPS && Round3(Span(width, row)) <= row.mediaWidthMm + EPS
    ensures !AllInside(width, row)
  {
    hide Left, Round3, Span;
    assert Columns(row) >= 1;
    assert !(Inside(width, row, 0) && Inside(width, row, Columns(row) - 1));
  }

  /** A negative width is admitted although its fourth column starts off the paper. */
  lemma {:induction false} NegativeWidthSlipsThrough()
    ensures var row := Row(4.0, 0.0, 118.0, -10.0, 1.0);
      RollRowProblem(-50.0, row).None? && Left(-50.0, row, 3) == -1.0 && !AllInside(-50.0, row)
  {
    var row := Row(4.0, 0.0, 118.0, -10.0, 1.0);
    assert Span(-50.0, row) == -200.0 && Start(-50.0, row) == 149.0;
    assert Left(-50.0, row, 3) == -1.0;
    assert !Inside(-50.0, row, 3);
  }

  // ---------------------------------------------------------------- neighbours

  /** Distance from a column's left edge to its neighbour's. */
  function Step(start: real, pitch: real): real { Round3(start + pitch) - Round3(start) }

  lemma {:induction false} LeftStep(width: real, row: Row, i: int)
    ensures Left(width, row, i + 1) - Left(width, row, i)
         == Step(Edge(Start(width, row), Pitch(width, row), i), Pitch(width, row))
  {
    hide Round3, Start, Pitch;
    assert Edge(Start(width, row), Pitch(width, row), i + 1)
        == Edge(Start(width, row), Pitch(width, row), i) + Pitch(width, row);
  }

  /** Neighbours are apart by the gap asked for, up to one rounding to a thousandth. */
  lemma {:induction false} GapKept(width: real, row: Row, i: int)
    ensures var gap := Left(width, row, i + 1) - (Left(width, row, i) + width);
      row.gapMm - 0.001 < gap < row.gapMm + 0.001
  {
    hide Step;
    LeftStep(width, row, i);
  }

  /** And by exactly that gap when label and gap together are whole thousandths. */
  lemma {:induction false} GapExact(width: real, row: Row, i: int)
    requires Whole((width + row.gapMm) * 1000.0)
    ensures Left(width, row, i + 1) - (Left(width, row, i) + width) == row.gapMm
  {
    hide Left, Start;
    LeftStep(width, row, i);
    WholeStep(Edge(Start(width, row), Pitch(width, row), i), Pitch(width, row));
  }

  lemma {:induction false} WholeStep(start: real, pitch: real)
    requires Whole(pitch * 1000.0)
    ensures Step(start, pitch) == pitch
  {
    var n := (pitch * 1000.0).Floor;
    assert (start + pitch) * 1000.0 + 0.5 == (start * 1000.0 + 0.5) + n as real;
    FloorShift(start * 1000.0 + 0.5, n);
  }

  /** No two labels of the row share any of the paper. */
  ghost predicate KeepsClear(width: real, row: Row)
  {
    forall i, j :: 0 <= i < j < Columns(row) ==> Left(width, row, j) >= Left(width, row, i) + width
  }

  /** A column and its gap, rounded down to a thousandth. */
  function PitchDown(width: real, gap: real): real { ((width + gap) * 1000.0).Floor as real / 1000.0 }

  lemma {:induction false} StepAtLeast(start: real, pitch: real)
    ensures Step(start, pitch) >= (pitch * 1000.0).Floor as real / 1000.0
  {
    var a, b := start * 1000.0 + 0.5, pitch * 1000.0;
    FloorShift(a, b.Floor);
    FloorMonotone(a + b.Floor as real, a + b);
    assert (start + pitch) * 1000.0 + 0.5 == a + b;
  }

  lemma {:induction false} ColumnsApart(width: real, row: Row, i: int, j: int)
    requires i <= j
    ensures Left(width, row, j) - Left(width, row, i) >= (j - i) as real * PitchDown(width, row.gapMm)
    decreases j - i
  {
    if i < j {
      hide Left, Step, PitchDown;
      ColumnsApart(width, row, i, j - 1);
      LeftStep(width, row, j - 1);
      StepAtLeast(Edge(Start(width, row), Pitch(width, row), j - 1), Pitch(width, row));
      PitchDownIs(width, row);
      OneMoreTime(j - 1 - i, PitchDown(width, row.gapMm));
    }
  }

  lemma {:induction false} PitchDownIs(width: real, row: Row)
    ensures PitchDown(width, row.gapMm) == (Pitch(width, row) * 1000.0).Floor as real / 1000.0
  {}

  lemma {:induction false} OneMoreTime(n: int, x: real)
    ensures (n + 1) as real * x == n as real * x + x
  {}

  lemma {:induction false} AtLeastOnce(n: int, x: real)
    requires n >= 1 && x >= 0.0
    ensures n as real * x >= x
  {}

  /** Where the rounded pitch leaves room for a label, no row has overlapping labels. */
  lemma {:induction false} RoomyRowsKeepClear(width: real, row: Row)
    requires width >= 0.0 && PitchDown(width, row.gapMm) >= width
    ensures KeepsClear(width, row)
  {
    hide Left, PitchDown;
    forall i, j | 0 <= i < j < Columns(row) ensures Left(width, row, j) >= Left(width, row, i) + width {
      ColumnsApart(width, row, i, j);
      AtLeastOnce(j - i, PitchDown(width, row.gapMm));
    }
  }

  /** Two labels with this gap can be admitted side by side, by their rounded span and by their outer edges. */
  predicate TwoFit(width: real, gap: real)
  {
    && 0.0 <= gap <= MAX_GAP && Round3(width + width + gap) <= PRINTABLE_MAX
    && PitchDown(width, gap) + width <= PRINTABLE_MAX + 2.0 * EPS
  }

  lemma {:induction false} SpanOfTwo(width: real, row: Row)
    requires width >= 0.0 && row.gapMm >= 0.0 && row.columns >= 2.0
    ensures Span(width, row) >= width + width + row.gapMm
  {
    assert Span(width, row) - (width + width + row.gapMm) == (row.columns - 2.0) * (width + row.gapMm);
    assert (row.columns - 2.0) * (width + row.gapMm) >= 0.0;
  }

  /** An admitted row with two labels or more has room for two. */
  lemma {:induction false} AdmittedTwoFit(width: real, row: Row)
    requires width >= 0.0 && RollRowProblem(width, row).None? && Columns(row) >= 2
    ensures TwoFit(width, row.gapMm)
  {
    hide *;
    AdmittedEdges(width, row);
    SpanOfTwo(width, row);
    RoundedTwo(width, row);
    EdgesOfTwo(width, row, Columns(row) - 1);
    TwoFitIs(width, row.gapMm);
  }

  lemma {:induction false} TwoFitIs(width: real, gap: real)
    ensures TwoFit(width, gap) <==>
      && 0.0 <= gap <= MAX_GAP && Round3(width + width + gap) <= PRINTABLE_MAX
      && PitchDown(width, gap) + width <= PRINTABLE_MAX + 2.0 * EPS
  {
    hide Round3, PitchDown;
  }

  lemma {:induction false} RoundedTwo(width: real, row: Row)
    requires width + width + row.gapMm <= Span(width, row) && Round3(Span(width, row)) <= PRINTABLE_MAX + EPS
    ensures Round3(width + width + row.gapMm) <= PRINTABLE_MAX
  {
    hide Round3, Span;
    Round3Monotone(width + width + row.gapMm, Span(width, row));
    OnGrid(width + width + row.gapMm);
  }

  lemma {:induction false} EdgesOfTwo(width: real, row: Row, n: int)
    requires n >= 1 && width >= 0.0 && row.gapMm >= 0.0
    requires Left(width, row, n) + width - Left(width, row, 0) <= PRINTABLE_MAX + 2.0 * EPS
    ensures PitchDown(width, row.gapMm) + width <= PRINTABLE_MAX + 2.0 * EPS
  {
    hide Left, PitchDown;
    ColumnsApart(width, row, 0, n);
    PitchDownNotNegative(width, row.gapMm);
    AtLeastOnce(n - 0, PitchDown(width, row.gapMm));
  }

  lemma {:induction false} AdmittedEdges(width: real, row: Row)
    requires RollRowProblem(width, row).None? && Columns(row) >= 2
    ensures row.columns >= 2.0 && 0.0 <= row.gapMm <= MAX_GAP && Round3(Span(width, row)) <= PRINTABLE_MAX + EPS
    ensures Left(width, row, Columns(row) - 1) + width - Left(width, row, 0) <= PRINTABLE_MAX + 2.0 * EPS
  {
    hide Left, Round3, Span;
  }

  lemma {:induction false} PitchDownNotNegative(width: real, gap: real)
    requires width >= 0.0 && gap >= 0.0
    ensures PitchDown(width, gap) >= 0.0
  {}

  /** Rounded lengths are whole thousandths, so the tolerance makes no difference to the width of the head. */
  lemma {:induction false} OnGrid(v: real)
    requires Round3(v) <= PRINTABLE_MAX + EPS
    ensures Round3(v) <= PRINTABLE_MAX
  {
    var n := (v * 1000.0 + 0.5).Floor;
    assert n as real <= 104000.0 + 0.000001;
  }

  /**
   * Two columns on paper of a width, moved so that the first starts half a thousandth before `first`: there rounding
   * gains the first label the most and the second one nothing.
   */
  function MovedTo(width: real, gap: real, media: real, first: real): Row
  {
    Row(2.0, gap, media, first - 0.0005 - (media - (width + width + gap)) / 2.0, 1.0)
  }

  lemma {:induction false} MovedStarts(width: real, gap: real, media: real, first: real)
    requires Whole(first * 1000.0)
    ensures var row := MovedTo(width, gap, media, first);
      Left(width, row, 0) == first && Left(width, row, 1) == first + PitchDown(width, gap)
      && Span(width, row) == width + width + gap && Columns(row) == 2
  {
    var row := MovedTo(width, gap, media, first);
    assert Start(width, row) == first - 0.0005;
    var n, p := (first * 1000.0).Floor, (width + gap) * 1000.0;
    assert Edge(Start(width, row), Pitch(width, row), 0) * 1000.0 + 0.5 == n as real;
    assert Edge(Start(width, row), Pitch(width, row), 1) * 1000.0 + 0.5 == p + n as real;
    FloorShift(p, n);
  }

  /** On paper the labels just fill, or on wide paper where they need the tolerance at both ends. */
  function TightRow(width: real, gap: real): Row
  {
    var span := width + width + gap;
    if span <= PRINTABLE_MAX then
      var media := if span < MEDIA_MIN then MEDIA_MIN else if Round3(span) > span then Round3(span) else span;
      MovedTo(width, gap, media, 0.0)
    else MovedTo(width, gap, 116.0 + 2.0 * EPS, 6.0)
  }

  lemma {:induction false} TightAdmitted(width: real, gap: real)
    requires width >= 0.0 && TwoFit(width, gap)
    ensures RollRowProblem(width, TightRow(width, gap)).None?
  {
    var row, span := TightRow(width, gap), width + width + gap;
    Round3Near(span);
    PitchDownBelow(width, gap);
    if span <= PRINTABLE_MAX {
      MovedStarts(width, gap, row.mediaWidthMm, 0.0);
    } else {
      MovedStarts(width, gap, row.mediaWidthMm, 6.0);
    }
    hide Left, Round3, PitchDown, Span;
  }

  lemma {:induction false} Round3Near(v: real)
    ensures v - 0.0005 <= Round3(v) <= v + 0.0005
  {}

  lemma {:induction false} PitchDownBelow(width: real, gap: real)
    ensures PitchDown(width, gap) <= width + gap
  {}

  /**
   * Admitted rows of labels of one width and gap never overlap, wherever they start and however many columns they
   * have, exactly when the pitch rounded down leaves room for the label, or when not even two labels fit side by side.
   */
  lemma {:induction false} NeverOverlapsIff(width: real, gap: real)
    requires width >= 0.0
    ensures (forall row: Row :: row.gapMm == gap && RollRowProblem(width, row).None? ==> KeepsClear(width, row))
       <==> PitchDown(width, gap) >= width || !TwoFit(width, gap)
  {
    hide RollRowProblem, PitchDown, Left, TwoFit, TightRow;
    if PitchDown(width, gap) >= width || !TwoFit(width, gap) {
      forall row: Row | row.gapMm == gap && RollRowProblem(width, row).None? ensures KeepsClear(width, row) {
        if PitchDown(width, gap) >= width {
          RoomyRowsKeepClear(width, row);
        } else if Columns(row) >= 2 {
          AdmittedTwoFit(width, row);
          assert false;
        }
      }
    } else {
      TightAdmitted(width, gap);
      TightOverlaps(width, gap);
    }
  }

  lemma {:induction false} TightOverlaps(width: real, gap: real)
    requires PitchDown(width, gap) < width
    ensures !KeepsClear(width, TightRow(width, gap)) && TightRow(width, gap).gapMm == gap
  {
    var row := TightRow(width, gap);
    var first := if width + width + gap <= PRINTABLE_MAX then 0.0 else 6.0;
    MovedStarts(width, gap, row.mediaWidthMm, first);
    hide Left, Round3, PitchDown;
    assert Left(width, row, 1) < Left(width, row, 0) + width;
  }

  /** An admitted row whose two labels overlap: the width is finer than the rounding and there is no gap. */
  lemma {:induction false} OverlapExample()
    ensures var row := Row(2.0, 0.0, 60.0018, 0.0, 1.0);
      RollRowProblem(30.0004, row).None? && Left(30.0004, row, 1) < Left(30.0004, row, 0) + 30.0004
  {
    var row := Row(2.0, 0.0, 60.0018, 0.0, 1.0);
    assert Span(30.0004, row) == 60.0008 && Start(30.0004, row) == 0.0005;
    assert Left(30.0004, row, 0) == 0.001;
    assert Left(30.0004, row, 1) == 30.001;
  }

  // ---------------------------------------------------------------- in plain millimetres

  /** The row stands in the middle of the paper, moved by the offset; places are rounded to thousandths. */
  function PlaceMm(width: real, row: Row, i: int): real
  {
    Thousandths((row.mediaWidthMm - SpanMm(width, row)) / 2.0 + row.offsetXMm + Times(i, width + row.gapMm))
  }

  function SpanMm(width: real, row: Row): real { row.columns * width + (row.columns - 1.0) * row.gapMm }

  function Thousandths(v: real): real { (v * 1000.0 + 0.5).Floor as real / 1000.0 }

  function Times(i: int, pitch: real): real { i as real * pitch }

  lemma {:induction false} LeftIs(width: real, row: Row, i: int)
    ensures Left(width, row, i) == PlaceMm(width, row, i)
  {
    SpanIs(width, row);
    EdgeIs(Start(width, row), Pitch(width, row), i);
    RoundedIs(Edge(Start(width, row), Pitch(width, row), i));
    hide Span, SpanMm, Times, Edge, Round3, Thousandths;
    assert Edge(Start(width, row), Pitch(width, row), i)
        == (row.mediaWidthMm - SpanMm(width, row)) / 2.0 + row.offsetXMm + Times(i, width + row.gapMm);
  }

  lemma {:induction false} EdgeIs(start: real, pitch: real, i: int)
    ensures Edge(start, pitch, i) == start + Times(i, pitch)
  {}

  lemma {:induction false} SpanIs(width: real, row: Row)
    ensures Span(width, row) == SpanMm(width, row)
  {}

  lemma {:induction false} RoundedIs(v: real)
    ensures Round3(v) == Thousandths(v)
  {}

  predicate NumbersInRange(row: Row)
  {
    && row.columns == row.columns.Floor as real && 1.0 <= row.columns <= 4.0
    && row.startSlot == row.startSlot.Floor as real && 1.0 <= row.startSlot <= row.columns
    && 0.0 <= row.gapMm <= 20.0 && -10.0 <= row.offsetXMm <= 10.0 && 15.0 <= row.mediaWidthMm <= 118.0
  }

  /** Between these two the print head of 104 mm, in the middle of the paper, can print. */
  function HeadFrom(media: real): real { if media > 104.0 then (media - 104.0) / 2.0 else 0.0 }

  function HeadTo(media: real): real { if media > 104.0 then (media + 104.0) / 2.0 else media }

  /** A row is admitted exactly if its numbers are in range and its ends, rounded, are on the paper and under the head. */
  lemma {:induction false} AdmittedIff(width: real, row: Row)
    ensures RollRowProblem(width, row).None? <==>
      && NumbersInRange(row)
      && var span := Thousandths(SpanMm(width, row));
      && var first, last := PlaceMm(width, row, 0), PlaceMm(width, row, row.columns.Floor - 1);
      && span <= 104.000000001 && span <= row.mediaWidthMm + 0.000000001
      && first >= -0.000000001 && last + width <= row.mediaWidthMm + 0.000000001
      && first >= HeadFrom(row.mediaWidthMm) - 0.000000001 && last + width <= HeadTo(row.mediaWidthMm) + 0.000000001
  {
    LeftIs(width, row, 0);
    LeftIs(width, row, Columns(row) - 1);
    SpanIs(width, row);
    RoundedIs(Span(width, row));
    hide Left, PlaceMm, Round3, Span, SpanMm, Thousandths;
    var first, last := Left(width, row, 0), Left(width, row, Columns(row) - 1);
    assert row.mediaWidthMm - Margin(row.mediaWidthMm) == HeadTo(row.mediaWidthMm);
    assert -row.offsetXMm > MAX_OFFSET <==> row.offsetXMm < -10.0;
    assert RollRowProblem(width, row).None? <==>
      && NumbersInRange(row) && Round3(Span(width, row)) <= 104.0 + EPS && Round3(Span(width, row)) <= row.mediaWidthMm + EPS
      && first >= -EPS && last + width <= row.mediaWidthMm + EPS
      && first >= Margin(row.mediaWidthMm) - EPS && last + width <= HeadTo(row.mediaWidthMm) + EPS;
  }

  /** Each refusal tells the truth about the row. */
  lemma {:induction false} ProblemBecause(width: real, row: Row)
    requires RollRowProblem(width, row).Some?
    ensures match RollRowProblem(width, row).value
      case ColumnsOutOfRange => !(row.columns == row.columns.Floor as real && 1.0 <= row.columns <= 4.0)
      case StartSlotOutOfRange => !(row.startSlot == row.startSlot.Floor as real && 1.0 <= row.startSlot <= row.columns)
      case GapOutOfRange => !(0.0 <= row.gapMm <= 20.0)
      case OffsetOutOfRange => !(-10.0 <= row.offsetXMm <= 10.0)
      case MediaOutOfRange => !(15.0 <= row.mediaWidthMm <= 118.0)
      case WiderThanPrinter => SpanMm(width, row) > 104.0
      case WiderThanMedia => SpanMm(width, row) > row.mediaWidthMm - 0.001
      case OffTheMedia =>
        PlaceMm(width, row, 0) < 0.0 || PlaceMm(width, row, row.columns.Floor - 1) + width > row.mediaWidthMm
      case OffTheWindow =>
        || PlaceMm(width, row, 0) < HeadFrom(row.mediaWidthMm)
        || PlaceMm(width, row, row.columns.Floor - 1) + width > HeadTo(row.mediaWidthMm)
  {
    LeftIs(width, row, 0);
    LeftIs(width, row, Columns(row) - 1);
    Round3Near(Span(width, row));
    SpanIs(width, row);
    hide Left, PlaceMm, Round3, Span, SpanMm;
    if RollRowProblem(width, row).value == WiderThanPrinter { WiderThanHead(width, row); }
  }

  lemma {:induction false} WiderThanHead(width: real, row: Row)
    requires Round3(Span(width, row)) > 104.0 + EPS
    ensures Span(width, row) > 104.0
  {
    var v := Span(width, row) * 1000.0 + 0.5;
    assert v.Floor as real > 104000.0;
    assert v.Floor >= 104001;
  }

  // ---------------------------------------------------------------- labels in rows

  function Blanks<T>(n: nat): (r: seq<Option<T>>)
    ensures |r| == n && forall i :: 0 <= i < n ==> r[i] == None
  {
    seq(n, i => None)
  }

  /** The used-up places of the first row, then the labels. */
  function Cells<T>(labels: seq<T>, startSlot: nat): (r: seq<Option<T>>)
    requires startSlot >= 1
    ensures |r| == startSlot - 1 + |labels|
    ensures forall i :: 0 <= i < |r| ==> r[i] == if i < startSlot - 1 then None else Some(labels[i - (startSlot - 1)])
  {
    Blanks<T>(startSlot - 1) + seq(|labels|, k requires 0 <= k < |labels| => Some(labels[k]))
  }

  function CellAt<T>(cells: seq<Option<T>>, i: nat): Option<T>
  {
    if i < |cells| then cells[i] else None
  }

  /** Rows of `columns` cells each, holding the cells one after the other and nothing after the last. */
  ghost predicate Laid<T>(rows: seq<seq<Option<T>>>, cells: seq<Option<T>>, columns: nat)
  {
    forall r :: 0 <= r < |rows| ==>
      |rows[r]| == columns && forall c :: 0 <= c < columns ==> rows[r][c] == CellAt(cells, r * columns + c)
  }

  /** Just enough rows. */
  predicate Enough(rows: nat, cells: nat, columns: nat)
  {
    rows * columns >= cells && (rows > 0 ==> (rows - 1) * columns < cells)
  }

  method FillRow<T>(cells: seq<Option<T>>, r: nat, columns: nat) returns (slots: seq<Option<T>>)
    ensures |slots| == columns && forall c :: 0 <= c < columns ==> slots[c] == CellAt(cells, r * columns + c)
  {
    slots := [];
    for c := 0 to columns
      invariant |slots| == c && forall d :: 0 <= d < c ==> slots[d] == CellAt(cells, r * columns + d)
    {
      slots := slots + [CellAt(cells, r * columns + c)];
    }
  }

  method LayRows<T>(cells: seq<Option<T>>, columns: nat) returns (rows: seq<seq<Option<T>>>)
    requires columns > 0
    ensures Laid(rows, cells, columns) && Enough(|rows|, |cells|, columns)
  {
    rows := [];
    var r := 0;
    while r * columns < |cells|
      invariant r == |rows| && Laid(rows, cells, columns)
      invariant r > 0 ==> (r - 1) * columns < |cells|
      decreases |cells| - r * columns
    {
      MulGap(r + 1, r, columns);
      var slots := FillRow(cells, r, columns);
      rows := rows + [slots];
      r := r + 1;
    }
  }

  method RowPage<T>(labels: seq<T>, width: real, row: Row) returns (page: Result<seq<seq<Option<T>>>, Problem>)
    ensures RollRowProblem(width, row).Some? ==> page == Err(RollRowProblem(width, row).value)
    ensures RollRowProblem(width, row).None? ==>
      && page.Ok? && Columns(row) >= 1 && row.startSlot.Floor >= 1
      && var cells := Cells(labels, row.startSlot.Floor);
         Laid(page.value, cells, Columns(row)) && Enough(|page.value|, |cells|, Columns(row))
  {
    var problem := RollRowProblem(width, row);
    if problem.Some? {
      return Err(problem.value);
    }
    assert 1 <= row.startSlot.Floor && 1 <= Columns(row);
    hide Left, Round3, Span;
    var rows := LayRows(Cells(labels, row.startSlot.Floor), Columns(row));
    page := Ok(rows);
  }

  lemma {:induction false} RowAndColumn(i: nat, columns: nat)
    requires columns > 0
    ensures i / columns >= 0 && 0 <= i % columns < columns && i == i / columns * columns + i % columns
  {}

  /** Label k, counted from 0, stands in row (k + start - 1) / columns at place (k + start - 1) % columns. */
  lemma {:induction false} LabelPlace<T>(labels: seq<T>, start: nat, columns: nat, rows: seq<seq<Option<T>>>, k: nat)
    requires start >= 1 && columns > 0 && k < |labels|
    requires Laid(rows, Cells(labels, start), columns) && Enough(|rows|, |Cells(labels, start)|, columns)
    ensures var i := k + start - 1;
      && 0 <= i / columns < |rows| && 0 <= i % columns < |rows[i / columns]|
      && rows[i / columns][i % columns] == Some(labels[k])
  {
    var i := k + start - 1;
    RowAndColumn(i, columns);
    assert CellAt(Cells(labels, start), i) == Some(labels[k]);
  }

  /** No cell holds anything but the label that belongs there. */
  lemma {:induction false} OnlyLabels<T>(labels: seq<T>, start: nat, columns: nat, rows: seq<seq<Option<T>>>, r: nat,
                                         c: nat)
    requires start >= 1 && columns > 0 && Laid(rows, Cells(labels, start), columns)
    requires r < |rows| && c < columns && rows[r][c].Some?
    ensures var k := r * columns + c - (start - 1); 0 <= k < |labels| && rows[r][c] == Some(labels[k])
  {}

  // Reading the page row by row.

  function Printed<T>(cells: seq<Option<T>>): seq<T>
  {
    if cells == [] then [] else Shown(cells[0]) + Printed(cells[1..])
  }

  function Flat<T>(rows: seq<seq<Option<T>>>): seq<Option<T>>
  {
    if rows == [] then [] else rows[0] + Flat(rows[1..])
  }

  function Shown<T>(cell: Option<T>): seq<T> { if cell.None? then [] else [cell.value] }

  lemma {:induction false} PrintedConcat<T>(a: seq<Option<T>>, b: seq<Option<T>>)
    ensures Printed(a + b) == Printed(a) + Printed(b)
  {
    if a == [] {
      assert a + b == b;
    } else {
      hide Printed, Shown;
      var c, t := a[0], a[1..];
      PrintedConcat(t, b);
      HeadAndTail(a);
      Assoc([c], t, b);
      Assoc(Shown(c), Printed(t), Printed(b));
    }
  }

  lemma {:induction false} PrintedBlanks<T>(n: nat)
    ensures Printed<T>(Blanks(n)) == []
  {
    if n > 0 {
      assert Blanks<T>(n)[1..] == Blanks<T>(n - 1);
      PrintedBlanks<T>(n - 1);
    }
  }

  lemma {:induction false} PrintedSome<T>(labels: seq<T>)
    ensures Printed(seq(|labels|, k requires 0 <= k < |labels| => Some(labels[k]))) == labels
  {
    if labels != [] {
      var all, rest := seq(|labels|, k requires 0 <= k < |labels| => Some(labels[k])), labels[1..];
      assert all[1..] == seq(|rest|, k requires 0 <= k < |rest| => Some(rest[k]));
      PrintedSome(rest);
      assert [labels[0]] + rest == labels;
    }
  }

  lemma {:induction false} PrintedCells<T>(labels: seq<T>, start: nat)
    requires start >= 1
    ensures Printed(Cells(labels, start)) == labels
  {
    PrintedConcat(Blanks<T>(start - 1), seq(|labels|, k requires 0 <= k < |labels| => Some(labels[k])));
    PrintedBlanks<T>(start - 1);
    PrintedSome(labels);
  }

  /** From row r on, the page is the cells from r * columns on, filled up with blanks. */
  lemma {:induction false} FlatFrom<T>(rows: seq<seq<Option<T>>>, cells: seq<Option<T>>, columns: nat, r: nat)
    requires columns > 0 && Laid(rows, cells, columns) && r <= |rows|
    ensures |Flat(rows[r..])| == (|rows| - r) * columns
    ensures forall i :: 0 <= i < |Flat(rows[r..])| ==> Flat(rows[r..])[i] == CellAt(cells, r * columns + i)
    decreases |rows| - r
  {
    if r < |rows| {
      FlatFrom(rows, cells, columns, r + 1);
      assert rows[r..][1..] == rows[r + 1..];
      Distribute(|rows| - r - 1, 1, columns);
      Distribute(r, 1, columns);
    } else {
      assert (|rows| - r) * columns == 0;
    }
  }

  /** Read row by row, the page holds every label once, in the order asked for, and nothing else. */
  lemma {:induction false} PageHoldsLabels<T>(labels: seq<T>, start: nat, columns: nat, rows: seq<seq<Option<T>>>)
    requires start >= 1 && columns > 0
    requires Laid(rows, Cells(labels, start), columns) && Enough(|rows|, |Cells(labels, start)|, columns)
    ensures Printed(Flat(rows)) == labels
  {
    hide Laid, CellAt;
    var cells := Cells(labels, start);
    FlatFrom(rows, cells, columns, 0);
    assert rows[0..] == rows;
    CellsThenBlanks(Flat(rows), cells);
    var n := |Flat(rows)| - |cells|;
    PrintedConcat(cells, Blanks<T>(n));
    PrintedBlanks<T>(n);
    PrintedCells(labels, start);
  }

  lemma {:induction false} CellsThenBlanks<T>(flat: seq<Option<T>>, cells: seq<Option<T>>)
    requires |flat| >= |cells| && forall i :: 0 <= i < |flat| ==> flat[i] == CellAt(cells, 0 + i)
    ensures flat == cells + Blanks<T>(|flat| - |cells|)
  {}

  ghost predicate HoldsLabel<T>(row: seq<Option<T>>) { exists c :: 0 <= c < |row| && row[c].Some? }

  /** Fewer rows would not do, so the last row holds the last label. */
  lemma {:induction false} RowHolds<T>(labels: seq<T>, start: nat, columns: nat, rows: seq<seq<Option<T>>>, r: nat)
    requires 1 <= start <= columns && labels != [] && r < |rows|
    requires Laid(rows, Cells(labels, start), columns) && Enough(|rows|, |Cells(labels, start)|, columns)
    ensures HoldsLabel(rows[r])
  {
    var cells := Cells(labels, start);
    // the first cell of a later row, the first label's cell of the first row
    var c := if r == 0 then start - 1 else 0;
    if r > 0 {
      MulGap(r, 0, columns);
      if r < |rows| - 1 { MulGap(|rows| - 1, r, columns); }
    }
    assert CellAt(cells, r * columns + c).Some?;
    assert rows[r][c].Some?;
  }

  /** No row is printed empty, unless there is nothing to print and the roll does not start at its first place. */
  lemma {:induction false} EveryRowHoldsIff<T>(labels: seq<T>, start: nat, columns: nat, rows: seq<seq<Option<T>>>)
    requires 1 <= start <= columns
    requires Laid(rows, Cells(labels, start), columns) && Enough(|rows|, |Cells(labels, start)|, columns)
    ensures (forall r :: 0 <= r < |rows| ==> HoldsLabel(rows[r])) <==> labels != [] || start == 1
  {
    hide HoldsLabel;
    if labels != [] {
      forall r | 0 <= r < |rows| ensures HoldsLabel(rows[r]) { RowHolds(labels, start, columns, rows, r); }
    } else if start == 1 {
    } else {
      assert |rows| > 0;
      EmptyRow(labels, start, columns, rows);
    }
  }

  lemma {:induction false} EmptyRow<T>(labels: seq<T>, start: nat, columns: nat, rows: seq<seq<Option<T>>>)
    requires 1 <= start <= columns && labels == [] && |rows| > 0 && Laid(rows, Cells(labels, start), columns)
    ensures !HoldsLabel(rows[0])
  {
    forall c | 0 <= c < columns ensures rows[0][c].None? {
      assert rows[0][c] == CellAt(Cells(labels, start), 0 * columns + c);
    }
  }
}
