// What kb_size leaves in the fields of rows and keys, written out without the functions that compute
// it: where rows and keys are, how large, and how their heights and widths add up.
module SizedLayouts {
  import opened Geometry
  import opened Layouts
  import opened LayoutRuns

  // ---------- from sizing to places ----------

  // A row with the height and the place of band i.
  predicate RowFits(p: Pane, i: nat, bands: seq<int>)
    requires i < |p.rows|
  {
    && |bands| == |p.rows| && p.rows[i].x == 0 && p.rows[i].actWidth == p.actWidth
    && p.rows[i].y == Sum(bands, i) && p.rows[i].actHeight == bands[i]
  }

  // A key that has its share of the width in a row of keys of this height.
  predicate KeyFits(row: RowBox, j: nat, shares: seq<int>, width: int, height: int)
    requires j < |row.keys|
  {
    var k := row.keys[j];
    && |shares| == |row.keys| && k.y == 0 && k.actHeight == height
    && k.x == Sum(shares, j) && k.actWidth == WidthAt(shares, width, j)
    && k.xPad == k.actWidth - k.cWidth - 2 * k.bSize && k.yPad == row.actHeight - k.cHeight - 2 * k.bSize
  }

  // The bands of a layout's rows, and the height of the keys in one of them.
  function BandsOf(p: Pane): (bands: seq<int>)
    requires p.minHeight > 0
    ensures |bands| == |p.rows|
  {
    Shares(NeedsOf(RowsOf(p.rows)), p.minHeight, p.actHeight)
  }

  function KeyHeightIn(p: Pane, i: nat): int
    requires i < |p.rows|
  {
    p.rows[i].actHeight - if i == |p.rows| - 1 then 1 else 0
  }

  function SharesIn(p: Pane, row: RowBox): (shares: seq<int>)
    requires row.minWidth > 0
    ensures |shares| == |row.keys|
  {
    Shares(PartsOf(row.keys), row.minWidth, p.actWidth)
  }

  // A layout with proper rows, as kb_new leaves it, in which all rows and keys have their shares.
  predicate IsSized(p: Pane) {
    && RowsProper(p.rows) && p.minHeight > 0 && p.actWidth >= 0 && p.actHeight >= 0
    && (forall i | 0 <= i < |p.rows| :: RowFits(p, i, BandsOf(p)))
    && forall i | 0 <= i < |p.rows| :: forall j | 0 <= j < |p.rows[i].keys| ::
         KeyFits(p.rows[i], j, SharesIn(p, p.rows[i]), p.actWidth, KeyHeightIn(p, i))
  }

  lemma {:induction false} PlannedRow(row: RowBox, width: int, plan: Plan)
    requires row == SizedRow(row, width, plan) && |plan.shares| == |plan.parts| == |row.keys|
    ensures row.x == 0 && row.actWidth == width && row.y == plan.top && row.actHeight == plan.band
  {
  }

  lemma {:induction false} PlannedKey(row: RowBox, width: int, plan: Plan, j: nat)
    requires row == SizedRow(row, width, plan) && |plan.shares| == |row.keys| && j < |row.keys|
    requires plan.parts == PartsOf(row.keys)
    ensures KeyFits(row, j, plan.shares, width, plan.height)
  {
    SizedKeyAt(row.keys, plan.parts, plan.shares, width, plan.band, plan.height, |row.keys|, j);
  }

  lemma {:induction false} PlanIs(p: Pane, i: nat)
    requires LayoutOf(p).Sizable() && i < |p.rows| && p.minHeight > 0 && p.rows[i].minWidth > 0
    ensures |LayoutOf(p).rows| == |p.rows|
    ensures var (plan, row) := (PlanAt(LayoutOf(p), i), p.rows[i]);
            && plan.parts == PartsOf(row.keys) && plan.shares == SharesIn(p, row)
            && plan.top == Sum(BandsOf(p), i) && plan.band == BandsOf(p)[i]
            && plan.height == plan.band - if i == |p.rows| - 1 then 1 else 0
  {
    RowIs(p.rows, i);
  }

  lemma {:induction false} SettledFits(p: Pane, i: nat)
    requires Sizable(p) && SizedPane(p) == p && i < |p.rows| && RowProper(p.rows[i]) && p.minHeight > 0
    ensures RowFits(p, i, BandsOf(p))
    ensures forall j | 0 <= j < |p.rows[i].keys| ::
              KeyFits(p.rows[i], j, SharesIn(p, p.rows[i]), p.actWidth, KeyHeightIn(p, i))
  {
    SettledRow(p, i);
    PlanIs(p, i);
    var (row, plan) := (p.rows[i], PlanAt(LayoutOf(p), i));
    PlannedRow(row, p.actWidth, plan);
    forall j | 0 <= j < |row.keys| ensures KeyFits(row, j, SharesIn(p, row), p.actWidth, KeyHeightIn(p, i)) {
      PlannedKey(row, p.actWidth, plan, j);
    }
  }

  // What kb_size leaves is sized in this sense.
  lemma {:induction false} SettledIsSized(p: Pane)
    requires Sizable(p) && SizedPane(p) == p
    requires RowsProper(p.rows) && p.minHeight > 0 && p.actWidth >= 0 && p.actHeight >= 0
    ensures IsSized(p)
  {
    forall i | 0 <= i < |p.rows|
      ensures RowFits(p, i, BandsOf(p))
      ensures forall j | 0 <= j < |p.rows[i].keys| ::
                KeyFits(p.rows[i], j, SharesIn(p, p.rows[i]), p.actWidth, KeyHeightIn(p, i))
    {
      SettledFits(p, i);
    }
  }

  // ---------- rows ----------

  // A row starts where the one above it ends, and is as wide as the window.
  predicate RowPlaced(p: Pane, i: nat)
    requires i < |p.rows|
  {
    var row := p.rows[i];
    && row.x == 0 && row.actWidth == p.actWidth
    && row.y == (if i == 0 then 0 else p.rows[i - 1].y + p.rows[i - 1].actHeight)
  }

  lemma {:induction false} RowFollows(p: Pane, i: nat, bands: seq<int>)
    requires i < |p.rows| && RowFits(p, i, bands) && (i > 0 ==> RowFits(p, i - 1, bands))
    ensures RowPlaced(p, i)
  {
  }

  lemma {:induction false} RowsArePlaced(p: Pane, i: nat)
    requires IsSized(p) && i < |p.rows|
    ensures RowPlaced(p, i)
  {
    RowFollows(p, i, BandsOf(p));
  }

  lemma {:induction false} ScaledIs(part: int, whole: int, size: int)
    requires part >= 0 && whole > 0 && size >= 0
    ensures Scaled(part, whole, size) == part * size / whole
  {
    Times(part, 0, size);
  }

  lemma {:induction false} NeedIs(rows: seq<RowBox>, i: nat)
    requires i < |rows|
    ensures NeedsOf(RowsOf(rows))[i] == rows[i].minHeight
  {
    RowIs(rows, i);
  }

  // A row's height is its share of the window's height, without the fraction.
  lemma {:induction false} RowHeight(p: Pane, i: nat)
    requires IsSized(p) && i < |p.rows|
    ensures p.rows[i].actHeight == p.rows[i].minHeight * p.actHeight / p.minHeight
  {
    NeedIs(p.rows, i);
    assert RowFits(p, i, BandsOf(p));
    ShareIs(NeedsOf(RowsOf(p.rows)), p.minHeight, p.actHeight, i);
    ScaledIs(p.rows[i].minHeight, p.minHeight, p.actHeight);
  }

  function HeightSum(rows: seq<RowBox>, n: nat): int
    requires n <= |rows|
  {
    if n == 0 then 0 else HeightSum(rows, n - 1) + rows[n - 1].actHeight
  }

  function NeedSum(rows: seq<RowBox>, n: nat): int
    requires n <= |rows|
  {
    if n == 0 then 0 else NeedSum(rows, n - 1) + rows[n - 1].minHeight
  }

  lemma {:induction false} SumsAre(rows: seq<RowBox>, bands: seq<int>, needs: seq<int>, n: nat)
    requires |rows| == |bands| == |needs| && n <= |rows|
    requires forall i | 0 <= i < |rows| :: bands[i] == rows[i].actHeight && needs[i] == rows[i].minHeight
    ensures HeightSum(rows, n) == Sum(bands, n) && NeedSum(rows, n) == Sum(needs, n)
  {
    if n > 0 {
      SumsAre(rows, bands, needs, n - 1);
    }
  }

  // Conservation of heights: rows whose minimum heights add up to the stored minimum fill the window
  // but for less than a pixel each. In general they fill that part of it that they need of the stored
  // minimum, but for less than a pixel each.
  lemma {:induction false} HeightConservation(p: Pane)
    requires IsSized(p) && p.rows != []
    ensures var (n, sum, needs) := (|p.rows|, HeightSum(p.rows, |p.rows|), NeedSum(p.rows, |p.rows|));
            && p.minHeight * sum <= needs * p.actHeight < p.minHeight * sum + n * p.minHeight
            && (needs == p.minHeight ==> p.actHeight - n < sum <= p.actHeight)
  {
    var (n, sum, needs) := (|p.rows|, HeightSum(p.rows, |p.rows|), NeedsOf(RowsOf(p.rows)));
    SumsOf(p);
    SumBounds(needs, p.minHeight, p.actHeight, n);
    if NeedSum(p.rows, n) == p.minHeight {
      Between(p.minHeight, sum, p.actHeight, n);
    }
  }

  lemma {:induction false} SumsOf(p: Pane)
    requires IsSized(p)
    ensures NonNegative(NeedsOf(RowsOf(p.rows)))
    ensures HeightSum(p.rows, |p.rows|) == Sum(BandsOf(p), |p.rows|)
    ensures NeedSum(p.rows, |p.rows|) == Sum(NeedsOf(RowsOf(p.rows)), |p.rows|)
  {
    var (bands, needs) := (BandsOf(p), NeedsOf(RowsOf(p.rows)));
    forall i | 0 <= i < |p.rows| ensures bands[i] == p.rows[i].actHeight && needs[i] == p.rows[i].minHeight >= 0 {
      assert RowFits(p, i, bands) && RowProper(p.rows[i]);
      NeedIs(p.rows, i);
    }
    SumsAre(p.rows, bands, needs, |p.rows|);
  }

  lemma {:induction false} Between(whole: int, sum: int, size: int, n: int)
    requires whole > 0 && whole * sum <= whole * size < whole * sum + n * whole
    ensures size - n < sum <= size
  {
    Distribute(sum, n, whole);
    CancelLeft(whole, sum, size);
    CancelStrict(whole, size, sum + n);
  }

  // ---------- keys ----------

  // A key starts where the one before it ends and is as high as its row, less one pixel in the last
  // row; the last key ends one pixel before the window. Its paddings fill it up.
  predicate KeyPlaced(p: Pane, i: nat, j: nat)
    requires HasKey(p, i, j)
  {
    var (row, k) := (p.rows[i], p.rows[i].keys[j]);
    && k.y == 0 && k.actHeight == row.actHeight - (if i == |p.rows| - 1 then 1 else 0)
    && k.x == (if j == 0 then 0 else row.keys[j - 1].x + row.keys[j - 1].actWidth)
    && (j == |row.keys| - 1 ==> k.x + k.actWidth == p.actWidth - 1)
    && k.xPad == k.actWidth - k.cWidth - 2 * k.bSize
    && k.yPad == row.actHeight - k.cHeight - 2 * k.bSize
  }

  lemma {:induction false} KeyFollows(p: Pane, i: nat, j: nat, shares: seq<int>, height: int)
    requires HasKey(p, i, j) && KeyFits(p.rows[i], j, shares, p.actWidth, height)
    requires j > 0 ==> KeyFits(p.rows[i], j - 1, shares, p.actWidth, height)
    requires height == p.rows[i].actHeight - if i == |p.rows| - 1 then 1 else 0
    ensures KeyPlaced(p, i, j)
  {
  }

  lemma {:induction false} KeysArePlaced(p: Pane, i: nat, j: nat)
    requires IsSized(p) && HasKey(p, i, j)
    ensures KeyPlaced(p, i, j)
  {
    assert j > 0 ==> HasKey(p, i, j - 1);
    KeyFollows(p, i, j, SharesIn(p, p.rows[i]), KeyHeightIn(p, i));
  }

  // All keys but the last have their share of the row's width, without the fraction.
  lemma {:induction false} KeyWidth(p: Pane, i: nat, j: nat)
    requires IsSized(p) && HasKey(p, i, j) && j < |p.rows[i].keys| - 1
    ensures p.rows[i].minWidth > 0
    ensures var k := p.rows[i].keys[j]; k.actWidth == (k.cWidth + 2 * k.bSize) * p.actWidth / p.rows[i].minWidth
  {
    var row := p.rows[i];
    assert KeyFits(row, j, SharesIn(p, row), p.actWidth, KeyHeightIn(p, i));
    assert RowProper(row) && PartsOf(row.keys)[j] >= 0;
    ShareIs(PartsOf(row.keys), row.minWidth, p.actWidth, j);
    ScaledIs(PartsOf(row.keys)[j], row.minWidth, p.actWidth);
  }

  function WidthTotal(keys: seq<Key>, n: nat): int
    requires n <= |keys|
  {
    if n == 0 then 0 else WidthTotal(keys, n - 1) + keys[n - 1].actWidth
  }

  // Conservation of widths: the keys of every row add up to the window less one pixel.
  lemma {:induction false} WidthsFill(p: Pane, i: nat, n: nat)
    requires IsSized(p) && i < |p.rows| && n <= |p.rows[i].keys|
    ensures n < |p.rows[i].keys| ==> p.rows[i].keys[n].x == WidthTotal(p.rows[i].keys, n)
    ensures n == |p.rows[i].keys| ==> WidthTotal(p.rows[i].keys, n) == p.actWidth - 1
  {
    if n > 0 {
      WidthsFill(p, i, n - 1);
      KeysArePlaced(p, i, n - 1);
    }
    if n < |p.rows[i].keys| {
      KeysArePlaced(p, i, n);
    }
  }

  // ---------- after every operation and every run ----------

  // What each operation sizes to: the size given, or the size there is; nothing is 0 in place of the
  // stored minimum.
  lemma {:induction false} OperationSizes(k: Panes, op: Op)
    requires CanDo(k, op)
    ensures var (before, after) := (k.Current(), Do(k, op).Current());
            var (w, h) := (if op.Resize? then op.width else before.actWidth, if op.Resize? then op.height else before.actHeight);
            && after.actWidth == (if w == 0 then before.minWidth else w)
            && after.actHeight == (if h == 0 then before.minHeight else h)
            && after.minWidth == before.minWidth && after.minHeight == before.minHeight
            && Do(k, op).vbox == (if op.Switch? then op.number else k.vbox)
            && forall n | 0 <= n < |k.layouts| && n != Do(k, op).vbox :: Do(k, op).layouts[n] == k.layouts[n]
  {
    SizingKeepsFrame(Prepared(k, op).Current());
  }

  // After every run of resizes, repaints and switches the rows and keys of the current layout are
  // placed as spelled out above, and the rows fill the window.
  lemma {:induction false} PlacedAfterRuns(k: Panes, ops: seq<Op>)
    requires Invariant(k) && SaneRun(k, ops) && (Settled(k) || ops != [])
    ensures var p := Run(k, ops).Current();
            && IsSized(p)
            && (forall i | 0 <= i < |p.rows| :: RowPlaced(p, i))
            && (p.rows != [] && NeedSum(p.rows, |p.rows|) == p.minHeight ==>
                  p.actHeight - |p.rows| < HeightSum(p.rows, |p.rows|) <= p.actHeight)
  {
    RunKeeps(k, ops);
    var p := Run(k, ops).Current();
    SettledIsSized(p);
    forall i | 0 <= i < |p.rows| ensures RowPlaced(p, i) {
      RowsArePlaced(p, i);
    }
    if p.rows != [] {
      HeightConservation(p);
    }
  }
}
