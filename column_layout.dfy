/**
 * Column widths of the notifications list. The list header is a sequence of
 * column items; each is either fixed (a pixel width and no proportion) or
 * proportional (a fraction of the width left over by the fixed columns).
 * Widths are JavaScript doubles in the editor; here they are exact reals,
 * which describe the values the arithmetic (subtractions and products with
 * 0.25 or 0.5) is meant to produce.
 */
module ColumnLayout {

  /** Pixels kept free on the right of the list, subtracted before any column. */
  const ScrollbarGutter: real := 27.0

  /** Right padding given to every column element that is laid out. */
  const ColumnPadding: real := 6.0

  /**
   * A header column. A `proportion` of 0.0 stands for an absent proportion:
   * the editor tests it for truthiness, and undefined and 0 are both falsy.
   * A `width` of 0.0 is likewise the "not computed yet" width.
   */
  datatype ColumnItem = ColumnItem(proportion: real, width: real)
  {
    predicate IsProportional() { proportion != 0.0 }
  }

  /**
   * The header the editor builds: an actions column 30 pixels wide, then the
   * "Never Show Again", "Notification" and "When" columns taking a quarter,
   * a quarter and a half of the remaining width.
   */
  function HeaderColumns(): (items: seq<ColumnItem>)
    ensures |items| == 4
    ensures !items[0].IsProportional() && items[0].width == 30.0
    ensures forall i :: 1 <= i < 4 ==> items[i].IsProportional() && items[i].width == 0.0
  {
    [ColumnItem(0.0, 30.0), ColumnItem(0.25, 0.0), ColumnItem(0.25, 0.0), ColumnItem(0.5, 0.0)]
  }

  /** What a column subtracts from the available width: a set width of a non-proportional column. */
  function FixedPart(c: ColumnItem): real
  {
    if c.width != 0.0 && !c.IsProportional() then c.width else 0.0
  }

  /** Sum of the fixed parts, accumulated front to back as the editor's first loop does. */
  function FixedWidth(items: seq<ColumnItem>): real
  {
    if items == [] then 0.0 else FixedWidth(items[..|items| - 1]) + FixedPart(items[|items| - 1])
  }

  /** The width shared out among the proportional columns. */
  function Remaining(available: real, items: seq<ColumnItem>): real
  {
    available - ScrollbarGutter - FixedWidth(items)
  }

  /** Sum of all widths. */
  function TotalWidth(items: seq<ColumnItem>): real
  {
    if items == [] then 0.0 else TotalWidth(items[..|items| - 1]) + items[|items| - 1].width
  }

  /** Sum of all proportions (absent ones count 0). */
  function ProportionSum(items: seq<ColumnItem>): real
  {
    if items == [] then 0.0 else ProportionSum(items[..|items| - 1]) + items[|items| - 1].proportion
  }

  /** A proportional column whose width is still 0 gets its share; any other column is left alone. */
  function FillItem(c: ColumnItem, remaining: real): ColumnItem
  {
    if c.IsProportional() && c.width == 0.0 then c.(width := remaining * c.proportion) else c
  }

  function FillAll(items: seq<ColumnItem>, remaining: real): (filled: seq<ColumnItem>)
    ensures |filled| == |items|
    ensures forall i :: 0 <= i < |items| ==> filled[i] == FillItem(items[i], remaining)
  {
    seq(|items|, i requires 0 <= i < |items| => FillItem(items[i], remaining))
  }

  /** The width pass of `layoutNotificationsList` for an available width: a memoised fill. */
  function LayoutStep(available: real, items: seq<ColumnItem>): (laid: seq<ColumnItem>)
    ensures |laid| == |items|
  {
    FillAll(items, Remaining(available, items))
  }

  /**
   * What the width pass writes: every proportion is kept; fixed columns and
   * proportional columns that already have a width are never written; every
   * other proportional column gets its proportion of the remaining width.
   */
  lemma LayoutStepWrites(available: real, items: seq<ColumnItem>, i: int)
    requires 0 <= i < |items|
    ensures LayoutStep(available, items)[i].proportion == items[i].proportion
    ensures !items[i].IsProportional() || items[i].width != 0.0 ==> LayoutStep(available, items)[i] == items[i]
    ensures items[i].IsProportional() && items[i].width == 0.0 ==>
      LayoutStep(available, items)[i].width == Remaining(available, items) * items[i].proportion
  {
  }

  /** The reset `layout` performs: every proportional width back to 0, fixed columns untouched. */
  function ResetItem(c: ColumnItem): ColumnItem
  {
    if c.IsProportional() then c.(width := 0.0) else c
  }

  function ResetProportional(items: seq<ColumnItem>): (reset: seq<ColumnItem>)
    ensures |reset| == |items|
    ensures forall i :: 0 <= i < |items| ==> reset[i] == ResetItem(items[i])
  {
    seq(|items|, i requires 0 <= i < |items| => ResetItem(items[i]))
  }

  /** What `layout` does to the column items: reset, then the memoised fill. */
  function Relayout(available: real, items: seq<ColumnItem>): (laid: seq<ColumnItem>)
    ensures |laid| == |items|
  {
    LayoutStep(available, ResetProportional(items))
  }

  /** The fixed width depends only on the non-proportional columns. */
  lemma {:induction false} FixedWidthOfFixedColumns(s: seq<ColumnItem>, t: seq<ColumnItem>)
    requires |s| == |t|
    requires forall i :: 0 <= i < |s| ==> s[i].proportion == t[i].proportion
    requires forall i :: 0 <= i < |s| && !s[i].IsProportional() ==> s[i].width == t[i].width
    ensures FixedWidth(s) == FixedWidth(t)
  {
    if s != [] {
      FixedWidthOfFixedColumns(s[..|s| - 1], t[..|t| - 1]);
    }
  }

  /** A proportional column that is reset and filled gets its share, whatever width it had. */
  lemma FillReset(c: ColumnItem, remaining: real)
    requires c.IsProportional()
    ensures FillItem(ResetItem(c), remaining) == ColumnItem(c.proportion, remaining * c.proportion)
  {
  }

  /** Column `i` after `layout`: the reset column, filled from the width left by the fixed columns. */
  lemma RelayoutAt(available: real, items: seq<ColumnItem>, i: int)
    requires 0 <= i < |items|
    ensures Relayout(available, items)[i] == FillItem(ResetItem(items[i]), Remaining(available, items))
  {
    var reset := ResetProportional(items);
    FixedWidthOfFixedColumns(reset, items);
    var remaining := Remaining(available, reset);
    assert remaining == Remaining(available, items);
    assert Relayout(available, items)[i] == FillItem(reset[i], remaining);
  }

  /**
   * After `layout` with available width `available`, a proportional column
   * keeps its proportion and has width `(available - 27 - fixed widths) * proportion`.
   */
  lemma RelayoutProportional(available: real, items: seq<ColumnItem>, i: int)
    requires 0 <= i < |items| && items[i].IsProportional()
    ensures Relayout(available, items)[i].proportion == items[i].proportion
    ensures Relayout(available, items)[i].width == Remaining(available, items) * items[i].proportion
  {
    RelayoutAt(available, items, i);
    FillReset(items[i], Remaining(available, items));
  }

  /** `layout` never writes a fixed column. */
  lemma RelayoutFixed(available: real, items: seq<ColumnItem>, i: int)
    requires 0 <= i < |items| && !items[i].IsProportional()
    ensures Relayout(available, items)[i] == items[i]
  {
    RelayoutAt(available, items, i);
  }

  /** A second width pass with the same available width changes nothing. */
  lemma LayoutStepIdempotent(available: real, items: seq<ColumnItem>)
    ensures LayoutStep(available, LayoutStep(available, items)) == LayoutStep(available, items)
  {
    var once := LayoutStep(available, items);
    FixedWidthOfFixedColumns(once, items);
    forall i | 0 <= i < |items|
      ensures FillItem(once[i], Remaining(available, once)) == once[i]
    {
      if items[i].IsProportional() && items[i].width == 0.0 && once[i].width == 0.0 {
        assert Remaining(available, items) * items[i].proportion == 0.0;
      }
    }
  }

  /** Calling `layout` twice with the same dimension gives the same widths as calling it once. */
  lemma RelayoutIdempotent(available: real, items: seq<ColumnItem>)
    ensures Relayout(available, Relayout(available, items)) == Relayout(available, items)
  {
    var once := Relayout(available, items);
    assert ResetProportional(once) == ResetProportional(items);
  }

  /**
   * Without the reset, a proportional column that already has a width keeps
   * it: the fill ignores the new available width for it.
   */
  lemma MemoisedWidthKept(available: real, items: seq<ColumnItem>, i: int)
    requires 0 <= i < |items| && items[i].width != 0.0
    ensures LayoutStep(available, items)[i] == items[i]
  {
  }

  /** Sum of the widths after reset and fill, for any remaining width. */
  lemma {:induction false} TotalOfFilledReset(items: seq<ColumnItem>, remaining: real)
    ensures TotalWidth(FillAll(ResetProportional(items), remaining)) ==
      FixedWidth(items) + remaining * ProportionSum(items)
  {
    if items != [] {
      var n := |items|;
      var front := items[..n - 1];
      TotalOfFilledReset(front, remaining);
      assert FillAll(ResetProportional(items), remaining)[..n - 1] == FillAll(ResetProportional(front), remaining);
      var last := items[n - 1];
      assert remaining * (ProportionSum(front) + last.proportion) ==
        remaining * ProportionSum(front) + remaining * last.proportion;
    }
  }

  /**
   * When the proportions add up to 1, `layout` hands out exactly the
   * available width minus the scrollbar gutter.
   */
  lemma RelayoutFillsWidth(available: real, items: seq<ColumnItem>)
    requires ProportionSum(items) == 1.0
    ensures TotalWidth(Relayout(available, items)) == available - ScrollbarGutter
  {
    FixedWidthOfFixedColumns(ResetProportional(items), items);
    TotalOfFilledReset(items, Remaining(available, items));
  }

  /**
   * The editor's header laid out at width `w`: [30, (w-57)/4, (w-57)/4, (w-57)/2],
   * adding up to w - 27. Nothing clamps, so below w = 57 the proportional
   * widths are negative.
   */
  lemma HeaderRelayout(w: real)
    ensures Relayout(w, HeaderColumns()) ==
      [ColumnItem(0.0, 30.0), ColumnItem(0.25, (w - 57.0) / 4.0),
       ColumnItem(0.25, (w - 57.0) / 4.0), ColumnItem(0.5, (w - 57.0) / 2.0)]
    ensures TotalWidth(Relayout(w, HeaderColumns())) == w - ScrollbarGutter
    ensures w < 57.0 ==> Relayout(w, HeaderColumns())[3].width < 0.0
  {
    var h := HeaderColumns();
    assert FixedWidth(h[..1]) == 30.0;
    assert h[..2][..1] == h[..1];
    assert h[..3][..2] == h[..2];
    assert h[..4][..3] == h[..3];
    assert h[..4] == h;
    assert FixedWidth(h) == 30.0;
    assert ProportionSum(h[..1]) == 0.0;
    assert ProportionSum(h) == 1.0;
    RelayoutAt(w, h, 0); RelayoutAt(w, h, 1); RelayoutAt(w, h, 2); RelayoutAt(w, h, 3);
    RelayoutFillsWidth(w, h);
  }

  /** An 800-pixel-wide editor: widths 30, 185.75, 185.75 and 371.5. */
  lemma HeaderAt800()
    ensures Relayout(800.0, HeaderColumns()) ==
      [ColumnItem(0.0, 30.0), ColumnItem(0.25, 185.75), ColumnItem(0.25, 185.75), ColumnItem(0.5, 371.5)]
  {
    HeaderRelayout(800.0);
  }

  /**
   * The reset is what makes a new dimension take effect: after a layout at
   * 800, a bare width pass at 1000 keeps the 800 widths, while a full
   * relayout at 1000 recomputes them.
   */
  lemma ResetNeededOnResize()
    ensures LayoutStep(1000.0, Relayout(800.0, HeaderColumns())) == Relayout(800.0, HeaderColumns())
    ensures Relayout(1000.0, Relayout(800.0, HeaderColumns())) != Relayout(800.0, HeaderColumns())
  {
    HeaderAt800();
    var at800 := Relayout(800.0, HeaderColumns());
    assert ResetProportional(at800) == HeaderColumns();
    HeaderRelayout(1000.0);
    assert ResetProportional(HeaderColumns()) == HeaderColumns();
    assert Relayout(1000.0, at800) == Relayout(1000.0, HeaderColumns());
  }
}
