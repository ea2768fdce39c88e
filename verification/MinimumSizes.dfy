// The passes at the end of kb_new: the widest one-character key and the tallest key of the first
// layout set the sizes of all others, rows add their keys up, layouts add their rows up, and the
// first layout takes over the largest height.
module MinimumSizes {
  import opened Geometry
  import opened Layouts
  import opened LayoutRuns

  // ---------- the first pass ----------

  // The keys whose width is unified: of no width of their own, and with one-character labels only.
  predicate Unified(k: Key) {
    !k.isWidthSpec && k.singleChar
  }

  // The keys of some rows, in the order of the loops.
  function AllKeys(rows: seq<RowBox>): seq<Key> {
    if rows == [] then [] else AllKeys(rows[..|rows| - 1]) + rows[|rows| - 1].keys
  }

  predicate WidestIs(keys: seq<Key>, w: int) {
    && w >= 0
    && (forall j | 0 <= j < |keys| && Unified(keys[j]) :: keys[j].cWidth <= w)
    && (w == 0 || exists j :: 0 <= j < |keys| && Unified(keys[j]) && keys[j].cWidth == w)
  }

  predicate TallestIs(keys: seq<Key>, h: int) {
    && h >= 0
    && (forall j | 0 <= j < |keys| && !keys[j].isWidthSpec :: keys[j].cHeight <= h)
    && (h == 0 || exists j :: 0 <= j < |keys| && !keys[j].isWidthSpec && keys[j].cHeight == h)
  }

  // One more key.
  lemma {:induction false} OneMore(keys: seq<Key>, b: Key, w: int, h: int)
    requires WidestIs(keys, w) && TallestIs(keys, h)
    ensures WidestIs(keys + [b], if Unified(b) && b.cWidth > w then b.cWidth else w)
    ensures TallestIs(keys + [b], if !b.isWidthSpec && b.cHeight > h then b.cHeight else h)
  {
    var more := keys + [b];
    assert more[|keys|] == b;
    if w != 0 {
      var j :| 0 <= j < |keys| && Unified(keys[j]) && keys[j].cWidth == w;
      assert more[j] == keys[j];
    }
    if h != 0 {
      var j :| 0 <= j < |keys| && !keys[j].isWidthSpec && keys[j].cHeight == h;
      assert more[j] == keys[j];
    }
  }

  method FirstPass(rows: seq<RowBox>) returns (maxWidth: int, maxHeight: int)
    ensures WidestIs(AllKeys(rows), maxWidth) && TallestIs(AllKeys(rows), maxHeight)
  {
    maxWidth, maxHeight := 0, 0;
    var i := 0;
    while i < |rows|
      invariant 0 <= i <= |rows|
      invariant WidestIs(AllKeys(rows[..i]), maxWidth) && TallestIs(AllKeys(rows[..i]), maxHeight)
    {
      var keys := rows[i].keys;
      ghost var before := AllKeys(rows[..i]);
      var j := 0;
      assert before + keys[..0] == before;
      while j < |keys|
        invariant 0 <= j <= |keys|
        invariant WidestIs(before + keys[..j], maxWidth) && TallestIs(before + keys[..j], maxHeight)
      {
        var b := keys[j];
        OneMore(before + keys[..j], b, maxWidth, maxHeight);
        assert before + keys[..j + 1] == before + keys[..j] + [b];
        if !b.isWidthSpec {
          if b.singleChar {
            if b.cWidth > maxWidth {
              maxWidth := b.cWidth;
            }
          }
          if b.cHeight > maxHeight {
            maxHeight := b.cHeight;
          }
        }
        j := j + 1;
      }
      assert keys[..|keys|] == keys && rows[..i + 1][..i] == rows[..i];
      i := i + 1;
    }
    assert rows[..|rows|] == rows;
  }

  // ---------- the second pass ----------

  // A key with its final natural size.
  function NaturalKey(k: Key, maxWidth: int, maxHeight: int): Key {
    var width := if !k.isWidthSpec && k.singleChar then maxWidth else k.cWidth;
    k.(cWidth := if k.keySpanWidth != 0 then k.keySpanWidth * maxWidth else width, cHeight := maxHeight)
  }

  function NaturalKeys(keys: seq<Key>, maxWidth: int, maxHeight: int, n: nat): (natural: seq<Key>)
    requires n <= |keys|
    ensures |natural| == n
  {
    if n == 0 then [] else NaturalKeys(keys, maxWidth, maxHeight, n - 1) + [NaturalKey(keys[n - 1], maxWidth, maxHeight)]
  }

  lemma {:induction false} NaturalKeyAt(keys: seq<Key>, maxWidth: int, maxHeight: int, n: nat, j: nat)
    requires j < n <= |keys|
    ensures NaturalKeys(keys, maxWidth, maxHeight, n)[j] == NaturalKey(keys[j], maxWidth, maxHeight)
  {
    if j < n - 1 {
      NaturalKeyAt(keys, maxWidth, maxHeight, n - 1, j);
    }
  }

  // The height of the tallest key with its borders, and at least 0.
  function TallestKey(keys: seq<Key>, n: nat): (h: int)
    requires n <= |keys|
    ensures h >= 0
  {
    if n == 0 then 0
    else
      var last := keys[n - 1].cHeight + 2 * keys[n - 1].bSize;
      var before := TallestKey(keys, n - 1);
      if last >= before then last else before
  }

  // No key of the row is taller than that.
  lemma {:induction false} TallestCovers(keys: seq<Key>, n: nat, j: nat)
    requires j < n <= |keys|
    ensures keys[j].cHeight + 2 * keys[j].bSize <= TallestKey(keys, n)
  {
    if j < n - 1 {
      TallestCovers(keys, n - 1, j);
    }
  }

  function NaturalRow(r: RowBox, maxWidth: int, maxHeight: int): RowBox {
    var keys := NaturalKeys(r.keys, maxWidth, maxHeight, |r.keys|);
    r.(keys := keys, minWidth := Sum(PartsOf(keys), |keys|), minHeight := TallestKey(keys, |keys|))
  }

  // The body of the loop over the keys of a row.
  method SizeNaturally(k: Key, maxSingleWidth: int, maxSingleHeight: int) returns (b: Key)
    ensures b == NaturalKey(k, maxSingleWidth, maxSingleHeight)
  {
    b := k;
    if !b.isWidthSpec {
      if b.singleChar {
        b := b.(cWidth := maxSingleWidth);
      }
    }
    b := b.(cHeight := maxSingleHeight);
    if b.keySpanWidth != 0 {
      b := b.(cWidth := b.keySpanWidth * maxSingleWidth);
    }
  }

  // The sum and the maximum over the first j keys.
  predicate KeysSoFar(keys: seq<Key>, j: nat, width: int, height: int) {
    j <= |keys| && width == Sum(PartsOf(keys), j) && height == TallestKey(keys, j)
  }

  lemma {:induction false} NextKey(keys: seq<Key>, j: nat, width: int, height: int)
    requires j < |keys| && KeysSoFar(keys, j, width, height)
    ensures var last := keys[j].cHeight + keys[j].bSize * 2;
            KeysSoFar(keys, j + 1, width + keys[j].cWidth + keys[j].bSize * 2, if last >= height then last else height)
  {
  }

  // After the first j keys of a row.
  predicate KeysPassed(r: RowBox, maxWidth: int, maxHeight: int, j: nat, keys: seq<Key>, width: int, height: int) {
    && j <= |r.keys| && keys == NaturalKeys(r.keys, maxWidth, maxHeight, j)
    && KeysSoFar(NaturalKeys(r.keys, maxWidth, maxHeight, |r.keys|), j, width, height)
  }

  lemma {:induction false} OneKeyPassed(r: RowBox, maxWidth: int, maxHeight: int, j: nat, keys: seq<Key>, width: int,
          height: int, b: Key)
    requires j < |r.keys| && KeysPassed(r, maxWidth, maxHeight, j, keys, width, height)
    requires b == NaturalKey(r.keys[j], maxWidth, maxHeight)
    ensures var last := b.cHeight + b.bSize * 2;
            KeysPassed(r, maxWidth, maxHeight, j + 1, keys + [b], width + b.cWidth + b.bSize * 2,
                       if last >= height then last else height)
  {
    NaturalKeyAt(r.keys, maxWidth, maxHeight, |r.keys|, j);
    NextKey(NaturalKeys(r.keys, maxWidth, maxHeight, |r.keys|), j, width, height);
  }

  lemma {:induction false} AllKeysPassed(r: RowBox, maxWidth: int, maxHeight: int, keys: seq<Key>, width: int, height: int)
    requires KeysPassed(r, maxWidth, maxHeight, |r.keys|, keys, width, height)
    ensures r.(keys := keys, minWidth := width, minHeight := height) == NaturalRow(r, maxWidth, maxHeight)
  {
  }

  // The loop over the keys of a row.
  method SecondPassRow(r: RowBox, maxSingleWidth: int, maxSingleHeight: int) returns (row: RowBox)
    ensures row == NaturalRow(r, maxSingleWidth, maxSingleHeight)
  {
    var tmpWidth, tmpHeight, maxHeight := 0, 0, 0;
    var keys := [];
    var j := 0;
    while j < |r.keys|
      invariant 0 <= j <= |r.keys| && tmpHeight <= maxHeight
      invariant KeysPassed(r, maxSingleWidth, maxSingleHeight, j, keys, tmpWidth, maxHeight)
    {
      var b := SizeNaturally(r.keys[j], maxSingleWidth, maxSingleHeight);
      OneKeyPassed(r, maxSingleWidth, maxSingleHeight, j, keys, tmpWidth, maxHeight, b);
      tmpWidth := tmpWidth + b.cWidth + b.bSize * 2;
      tmpHeight := b.cHeight + b.bSize * 2;
      if tmpHeight >= maxHeight {
        maxHeight := tmpHeight;
      }
      keys := keys + [b];
      j := j + 1;
    }
    if tmpHeight >= maxHeight {
      maxHeight := tmpHeight;
    }
    AllKeysPassed(r, maxSingleWidth, maxSingleHeight, keys, tmpWidth, maxHeight);
    row := r.(keys := keys, minWidth := tmpWidth, minHeight := maxHeight);
  }

  function NaturalRows(rows: seq<RowBox>, maxWidth: int, maxHeight: int, n: nat): (natural: seq<RowBox>)
    requires n <= |rows|
    ensures |natural| == n
  {
    if n == 0 then [] else NaturalRows(rows, maxWidth, maxHeight, n - 1) + [NaturalRow(rows[n - 1], maxWidth, maxHeight)]
  }

  lemma {:induction false} NaturalRowAt(rows: seq<RowBox>, maxWidth: int, maxHeight: int, n: nat, i: nat)
    requires i < n <= |rows|
    ensures NaturalRows(rows, maxWidth, maxHeight, n)[i] == NaturalRow(rows[i], maxWidth, maxHeight)
  {
    if i < n - 1 {
      NaturalRowAt(rows, maxWidth, maxHeight, n - 1, i);
    }
  }

  predicate AreNatural(natural: seq<RowBox>, rows: seq<RowBox>, maxWidth: int, maxHeight: int) {
    natural == NaturalRows(rows, maxWidth, maxHeight, |rows|)
  }

  // The sum of the rows' minimum heights.
  function Stacked(rows: seq<RowBox>, n: nat): int
    requires n <= |rows|
  {
    if n == 0 then 0 else Stacked(rows, n - 1) + rows[n - 1].minHeight
  }

  predicate AtLeastRows(rows: seq<RowBox>, width: int) {
    forall i | 0 <= i < |rows| :: rows[i].minWidth <= width
  }

  // The largest minimum width of some rows, and at least 0.
  predicate WidestRow(rows: seq<RowBox>, width: int) {
    width >= 0 && AtLeastRows(rows, width) && (width == 0 || exists i :: 0 <= i < |rows| && rows[i].minWidth == width)
  }

  lemma {:induction false} OneRowWider(rows: seq<RowBox>, row: RowBox, width: int)
    requires WidestRow(rows, width)
    ensures WidestRow(rows + [row], if row.minWidth > width then row.minWidth else width)
  {
    var more := rows + [row];
    assert more[|rows|] == row;
    if width != 0 {
      var i :| 0 <= i < |rows| && rows[i].minWidth == width;
      assert more[i] == rows[i];
    }
  }

  lemma {:induction false} WidestCoversLast(before: seq<RowBox>, rows: seq<RowBox>, width: int)
    requires WidestRow(before + rows, width)
    ensures AtLeastRows(rows, width)
  {
    forall i | 0 <= i < |rows| ensures rows[i].minWidth <= width {
      assert (before + rows)[|before| + i] == rows[i];
    }
  }

  // The loop over the rows of a layout. The running maximum of the row widths is that of all
  // layouts so far.
  method SecondPassPane(p: Pane, maxSingleWidth: int, maxSingleHeight: int, maxWidthSoFar: int,
          ghost before: seq<RowBox>) returns (pane: Pane, maxWidth: int)
    requires WidestRow(before, maxWidthSoFar)
    ensures AreNatural(pane.rows, p.rows, maxSingleWidth, maxSingleHeight)
    ensures pane == p.(rows := pane.rows, minHeight := p.minHeight + Stacked(pane.rows, |pane.rows|), minWidth := maxWidth)
    ensures WidestRow(before + pane.rows, maxWidth)
  {
    maxWidth := maxWidthSoFar;
    var rows, minHeight := [], p.minHeight;
    var i := 0;
    assert before + [] == before;
    while i < |p.rows|
      invariant 0 <= i <= |p.rows|
      invariant RowsSoFar(p, maxSingleWidth, maxSingleHeight, i, rows, minHeight)
      invariant WidestRow(before + rows, maxWidth)
    {
      var row := SecondPassRow(p.rows[i], maxSingleWidth, maxSingleHeight);
      NextRow(p, maxSingleWidth, maxSingleHeight, i, rows, minHeight, row);
      OneRowWider(before + rows, row, maxWidth);
      assert before + rows + [row] == before + (rows + [row]);
      if row.minWidth > maxWidth {
        maxWidth := row.minWidth;
      }
      minHeight := minHeight + row.minHeight;
      rows := rows + [row];
      i := i + 1;
    }
    pane := p.(rows := rows, minHeight := minHeight, minWidth := maxWidth);
  }

  // After the first n rows.
  predicate RowsSoFar(p: Pane, maxSingleWidth: int, maxSingleHeight: int, n: nat, rows: seq<RowBox>,
          minHeight: int) {
    && n <= |p.rows| && rows == NaturalRows(p.rows, maxSingleWidth, maxSingleHeight, n)
    && minHeight == p.minHeight + Stacked(rows, |rows|)
  }

  lemma {:induction false} NextRow(p: Pane, maxSingleWidth: int, maxSingleHeight: int, n: nat, rows: seq<RowBox>,
          minHeight: int, row: RowBox)
    requires n < |p.rows| && row == NaturalRow(p.rows[n], maxSingleWidth, maxSingleHeight)
    requires RowsSoFar(p, maxSingleWidth, maxSingleHeight, n, rows, minHeight)
    ensures RowsSoFar(p, maxSingleWidth, maxSingleHeight, n + 1, rows + [row], minHeight + row.minHeight)
  {
    StackedMore(rows, row, |rows|);
  }

  lemma {:induction false} StackedMore(rows: seq<RowBox>, row: RowBox, n: nat)
    requires n <= |rows|
    ensures Stacked(rows + [row], n) == Stacked(rows, n)
    ensures Stacked(rows + [row], |rows| + 1) == Stacked(rows + [row], |rows|) + row.minHeight
  {
    if n > 0 {
      StackedMore(rows, row, n - 1);
    }
  }

  // A layout after both passes, apart from the first one's stored minimum height.
  predicate IsNatural(pane: Pane, p: Pane, maxWidth: int, maxHeight: int) {
    && AreNatural(pane.rows, p.rows, maxWidth, maxHeight)
    && pane == p.(rows := pane.rows, minHeight := pane.minHeight, minWidth := pane.minWidth)
  }

  function Need(pane: Pane): int {
    Stacked(pane.rows, |pane.rows|)
  }

  predicate AllNatural(sized: seq<Pane>, layouts: seq<Pane>, maxWidth: int, maxHeight: int) {
    |sized| <= |layouts| && forall n | 0 <= n < |sized| :: IsNatural(sized[n], layouts[n], maxWidth, maxHeight)
  }

  // The first layout's stored minimum height is the largest that the rows of any layout need.
  predicate FirstIsHighest(sized: seq<Pane>) {
    && sized != []
    && (forall n | 0 <= n < |sized| :: Need(sized[n]) <= sized[0].minHeight)
    && exists n :: 0 <= n < |sized| && Need(sized[n]) == sized[0].minHeight
  }

  // The layouts so far and one more: the first takes over the height of a higher one.
  function Joined(sized: seq<Pane>, pane: Pane): seq<Pane>
    requires sized != []
  {
    (if pane.minHeight > sized[0].minHeight then sized[0 := sized[0].(minHeight := pane.minHeight)] else sized) + [pane]
  }

  lemma {:induction false} JoinedIsHighest(sized: seq<Pane>, pane: Pane)
    requires FirstIsHighest(sized) && Need(pane) == pane.minHeight
    ensures FirstIsHighest(Joined(sized, pane))
  {
    var joined := Joined(sized, pane);
    forall n | 0 <= n < |joined| ensures Need(joined[n]) <= joined[0].minHeight {
      assert n < |sized| ==> Need(joined[n]) == Need(sized[n]);
    }
    if pane.minHeight > sized[0].minHeight {
      assert Need(joined[|sized|]) == joined[0].minHeight;
    } else {
      var n :| 0 <= n < |sized| && Need(sized[n]) == sized[0].minHeight;
      assert joined[n] == sized[n];
    }
  }

  lemma {:induction false} JoinedIsNatural(sized: seq<Pane>, pane: Pane, layouts: seq<Pane>, maxWidth: int,
          maxHeight: int)
    requires sized != [] && |sized| < |layouts| && AllNatural(sized, layouts, maxWidth, maxHeight)
    requires IsNatural(pane, layouts[|sized|], maxWidth, maxHeight)
    ensures AllNatural(Joined(sized, pane), layouts, maxWidth, maxHeight)
  {
    var joined := Joined(sized, pane);
    forall n | 0 <= n < |joined| ensures IsNatural(joined[n], layouts[n], maxWidth, maxHeight) {
      if n < |sized| {
        assert IsNatural(sized[n], layouts[n], maxWidth, maxHeight);
      }
    }
  }

  // The rows of the first n layouts, one layout after the other.
  function RowsUpTo(sized: seq<Pane>, n: nat): seq<RowBox>
    requires n <= |sized|
  {
    if n == 0 then [] else RowsUpTo(sized, n - 1) + sized[n - 1].rows
  }

  // Every layout's minimum width is the largest of the rows so far, and every layout's but the first
  // one's minimum height is what its own rows need.
  predicate HasMinima(sized: seq<Pane>) {
    forall n | 0 <= n < |sized| :: MinimaAt(sized, n)
  }

  predicate MinimaAt(sized: seq<Pane>, n: nat)
    requires n < |sized|
  {
    WidestRow(RowsUpTo(sized, n + 1), sized[n].minWidth) && (n > 0 ==> sized[n].minHeight == Need(sized[n]))
  }

  lemma {:induction false} SameRowsUpTo(a: seq<Pane>, b: seq<Pane>, n: nat)
    requires n <= |a| && n <= |b| && forall m | 0 <= m < n :: a[m].rows == b[m].rows
    ensures RowsUpTo(a, n) == RowsUpTo(b, n)
  {
    if n > 0 {
      SameRowsUpTo(a, b, n - 1);
    }
  }

  lemma {:induction false} JoinedHasMinima(sized: seq<Pane>, pane: Pane)
    requires sized != [] && HasMinima(sized) && pane.minHeight == Need(pane)
    requires WidestRow(RowsUpTo(sized, |sized|) + pane.rows, pane.minWidth)
    ensures HasMinima(Joined(sized, pane))
  {
    var joined := Joined(sized, pane);
    forall n | 0 <= n < |joined| ensures MinimaAt(joined, n) {
      if n < |sized| {
        assert MinimaAt(sized, n);
        SameRowsUpTo(joined, sized, n + 1);
      } else {
        SameRowsUpTo(joined, sized, n);
      }
    }
  }

  // The layouts after the second pass has been through all of them.
  predicate SizedBy(sized: seq<Pane>, layouts: seq<Pane>, maxWidth: int, maxHeight: int) {
    AllNatural(sized, layouts, maxWidth, maxHeight) && FirstIsHighest(sized) && HasMinima(sized)
  }

  lemma {:induction false} FirstIsSized(first: Pane, layouts: seq<Pane>, maxWidth: int, maxHeight: int)
    requires layouts != [] && IsNatural(first, layouts[0], maxWidth, maxHeight) && first.minHeight == Need(first)
    requires WidestRow([] + first.rows, first.minWidth)
    ensures SizedBy([first], layouts, maxWidth, maxHeight)
  {
    assert RowsUpTo([first], 1) == [] + first.rows;
    assert Need([first][0]) == [first][0].minHeight;
  }

  lemma {:induction false} JoinedIsSized(sized: seq<Pane>, pane: Pane, layouts: seq<Pane>, maxWidth: int, maxHeight: int)
    requires 0 < |sized| < |layouts| && SizedBy(sized, layouts, maxWidth, maxHeight)
    requires IsNatural(pane, layouts[|sized|], maxWidth, maxHeight) && pane.minHeight == Need(pane)
    requires WidestRow(RowsUpTo(sized, |sized|) + pane.rows, pane.minWidth)
    ensures SizedBy(Joined(sized, pane), layouts, maxWidth, maxHeight)
  {
    JoinedIsHighest(sized, pane);
    JoinedIsNatural(sized, pane, layouts, maxWidth, maxHeight);
    JoinedHasMinima(sized, pane);
  }

  lemma {:induction false} LastIsWidest(sized: seq<Pane>)
    requires sized != [] && HasMinima(sized)
    ensures WidestRow(RowsUpTo(sized, |sized|), sized[|sized| - 1].minWidth)
  {
    assert MinimaAt(sized, |sized| - 1);
  }

  // The end of the loop over the layouts.
  method Join(sized: seq<Pane>, pane: Pane) returns (joined: seq<Pane>)
    requires sized != []
    ensures joined == Joined(sized, pane)
  {
    joined := sized;
    if pane.minHeight > joined[0].minHeight {
      joined := joined[0 := joined[0].(minHeight := pane.minHeight)];
    }
    joined := joined + [pane];
  }

  // Both passes. The layouts come with a minimum height of 0. Every layout gets natural rows and the
  // minimum sizes that follow from them; the first one's stored minimum height is the largest that any
  // layout's rows need.
  method KbNewSizes(layouts: seq<Pane>) returns (sized: seq<Pane>, ghost maxWidth: int, ghost maxHeight: int)
    requires layouts != [] && forall n | 0 <= n < |layouts| :: layouts[n].minHeight == 0
    ensures WidestIs(AllKeys(layouts[0].rows), maxWidth) && TallestIs(AllKeys(layouts[0].rows), maxHeight)
    ensures |sized| == |layouts| && SizedBy(sized, layouts, maxWidth, maxHeight + 2)
  {
    var widest, tallest := FirstPass(layouts[0].rows);
    maxWidth, maxHeight := widest, tallest;
    tallest := tallest + 2;
    var first, runningWidth := SecondPassPane(layouts[0], widest, tallest, 0, []);
    sized := [first];
    FirstIsSized(first, layouts, widest, tallest);
    var j := 1;
    while j < |layouts|
      invariant 1 <= j <= |layouts| && |sized| == j
      invariant SizedBy(sized, layouts, widest, tallest)
      invariant runningWidth == sized[j - 1].minWidth
    {
      sized, runningWidth := SizeNext(layouts, sized, widest, tallest, runningWidth);
      j := j + 1;
    }
  }

  // The body of the loop over the layouts.
  method SizeNext(layouts: seq<Pane>, sized: seq<Pane>, maxWidth: int, maxHeight: int, maxWidthSoFar: int)
    returns (joined: seq<Pane>, runningWidth: int)
    requires 0 < |sized| < |layouts| && SizedBy(sized, layouts, maxWidth, maxHeight)
    requires layouts[|sized|].minHeight == 0 && maxWidthSoFar == sized[|sized| - 1].minWidth
    ensures |joined| == |sized| + 1 && SizedBy(joined, layouts, maxWidth, maxHeight)
    ensures runningWidth == joined[|joined| - 1].minWidth
  {
    LastIsWidest(sized);
    var pane;
    pane, runningWidth := SecondPassPane(layouts[|sized|], maxWidth, maxHeight, maxWidthSoFar, RowsUpTo(sized, |sized|));
    JoinedIsSized(sized, pane, layouts, maxWidth, maxHeight);
    joined := Join(sized, pane);
  }

  // ---------- where runs start ----------

  // Sizes and widths in the configuration are not negative, and no row is empty.
  predicate Configured(layouts: seq<Pane>) {
    forall n | 0 <= n < |layouts| ::
      layouts[n].actWidth >= 0 && layouts[n].actHeight >= 0 && RowsConfigured(layouts[n].rows)
  }

  predicate RowsConfigured(rows: seq<RowBox>) {
    forall i | 0 <= i < |rows| :: RowConfigured(rows[i])
  }

  predicate RowConfigured(r: RowBox) {
    r.keys != [] && forall j | 0 <= j < |r.keys| ::
      r.keys[j].cWidth >= 0 && r.keys[j].bSize >= 0 && r.keys[j].keySpanWidth >= 0
  }

  lemma {:induction false} StackedIsNeeded(rows: seq<RowBox>)
    ensures Stacked(rows, |rows|) == HeightNeeded(rows)
  {
    StackedUpTo(rows, |rows|);
  }

  lemma {:induction false} StackedUpTo(rows: seq<RowBox>, n: nat)
    requires n <= |rows|
    ensures Stacked(rows, n) == Sum(NeedsOf(RowsOf(rows)), n)
  {
    if n > 0 {
      StackedUpTo(rows, n - 1);
      RowIs(rows, n - 1);
    }
  }

  lemma {:induction false} NaturalRowProper(r: RowBox, maxWidth: int, maxHeight: int)
    requires RowConfigured(r) && maxWidth >= 0
    ensures var row := NaturalRow(r, maxWidth, maxHeight);
            && NonNegative(PartsOf(row.keys)) && row.minHeight >= maxHeight
            && (row.minWidth > 0 ==> RowProper(row))
  {
    var keys := NaturalKeys(r.keys, maxWidth, maxHeight, |r.keys|);
    forall j | 0 <= j < |keys| ensures PartsOf(keys)[j] >= 0 {
      NaturalKeyAt(r.keys, maxWidth, maxHeight, |r.keys|, j);
      Times(r.keys[j].keySpanWidth, 0, maxWidth);
    }
    NaturalKeyAt(r.keys, maxWidth, maxHeight, |r.keys|, 0);
    TallestCovers(keys, |keys|, 0);
  }

  // ---------- rows of some width ----------

  // Whether a key gets any width: one of its own, or that of the widest one-character key.
  predicate KeyWide(k: Key, single: bool) {
    k.bSize > 0 || if k.keySpanWidth != 0 || Unified(k) then single else k.cWidth > 0
  }

  predicate RowWide(r: RowBox, single: bool) {
    exists j :: 0 <= j < |r.keys| && KeyWide(r.keys[j], single)
  }

  predicate RowsWide(rows: seq<RowBox>, single: bool) {
    forall i | 0 <= i < |rows| :: RowWide(rows[i], single)
  }

  predicate SingleWide(rows: seq<RowBox>) {
    exists k | k in AllKeys(rows) :: Unified(k) && k.cWidth > 0
  }

  // Every row has a key that gets some width, and there is a row.
  predicate PanesWide(layouts: seq<Pane>)
    requires layouts != []
  {
    && (exists n :: 0 <= n < |layouts| && layouts[n].rows != [])
    && forall n | 0 <= n < |layouts| :: RowsWide(layouts[n].rows, SingleWide(layouts[0].rows))
  }

  lemma {:induction false} SingleWideIs(rows: seq<RowBox>, w: int)
    requires WidestIs(AllKeys(rows), w)
    ensures w > 0 <==> SingleWide(rows)
  {
    var keys := AllKeys(rows);
    if w > 0 {
      var j :| 0 <= j < |keys| && Unified(keys[j]) && keys[j].cWidth == w;
      assert keys[j] in keys;
    }
    assert forall j | 0 <= j < |keys| :: Unified(keys[j]) ==> keys[j].cWidth <= w;
    assert forall k | k in keys :: Unified(k) ==> k.cWidth <= w;
  }

  lemma {:induction false} SumPositive(parts: seq<int>, n: nat)
    requires n <= |parts| && NonNegative(parts)
    ensures Sum(parts, n) >= 0
    ensures Sum(parts, n) > 0 <==> exists j :: 0 <= j < n && parts[j] > 0
  {
    if n > 0 {
      SumPositive(parts, n - 1);
      if parts[n - 1] > 0 {
        assert exists j :: 0 <= j < n && parts[j] > 0;
      }
    }
  }

  lemma {:induction false} NaturalKeyWide(k: Key, maxWidth: int, maxHeight: int)
    requires k.cWidth >= 0 && k.bSize >= 0 && k.keySpanWidth >= 0 && maxWidth >= 0
    ensures var b := NaturalKey(k, maxWidth, maxHeight);
            b.cWidth + 2 * b.bSize >= 0 && (b.cWidth + 2 * b.bSize > 0 <==> KeyWide(k, maxWidth > 0))
  {
    if k.keySpanWidth > 0 {
      Times(k.keySpanWidth, 1, maxWidth);
    }
  }

  lemma {:induction false} NaturalRowWide(r: RowBox, maxWidth: int, maxHeight: int)
    requires RowConfigured(r) && maxWidth >= 0
    ensures NaturalRow(r, maxWidth, maxHeight).minWidth > 0 <==> RowWide(r, maxWidth > 0)
  {
    var keys := NaturalKeys(r.keys, maxWidth, maxHeight, |r.keys|);
    var parts := PartsOf(keys);
    forall j | 0 <= j < |keys| ensures parts[j] >= 0 && (parts[j] > 0 <==> KeyWide(r.keys[j], maxWidth > 0)) {
      NaturalKeyAt(r.keys, maxWidth, maxHeight, |r.keys|, j);
      NaturalKeyWide(r.keys[j], maxWidth, maxHeight);
    }
    SumPositive(parts, |keys|);
  }

  // The rows of a layout are proper exactly if each has some width.
  lemma {:induction false} NaturalRowsProper(p: Pane, pane: Pane, maxWidth: int, maxHeight: int)
    requires IsNatural(pane, p, maxWidth, maxHeight) && RowsConfigured(p.rows) && maxWidth >= 0
    ensures RowsProper(pane.rows) <==> RowsWide(p.rows, maxWidth > 0)
  {
    forall i | 0 <= i < |p.rows| ensures RowProper(pane.rows[i]) <==> RowWide(p.rows[i], maxWidth > 0) {
      NaturalRowAt(p.rows, maxWidth, maxHeight, |p.rows|, i);
      NaturalRowProper(p.rows[i], maxWidth, maxHeight);
      NaturalRowWide(p.rows[i], maxWidth, maxHeight);
    }
  }

  lemma {:induction false} StackedPositive(before: seq<RowBox>, rows: seq<RowBox>, maxWidth: int, maxHeight: int, n: nat)
    requires maxWidth >= 0 && maxHeight > 0 && n <= |rows|
    requires AreNatural(rows, before, maxWidth, maxHeight) && RowsConfigured(before)
    ensures Stacked(rows, n) >= 0 && (Stacked(rows, n) > 0 <==> n > 0)
  {
    if n > 0 {
      NaturalRowAt(before, maxWidth, maxHeight, |before|, n - 1);
      NaturalRowProper(before[n - 1], maxWidth, maxHeight);
      StackedPositive(before, rows, maxWidth, maxHeight, n - 1);
    }
  }

  // The first layout's stored minimum is positive exactly if there is a row.
  lemma {:induction false} SomeHeight(layouts: seq<Pane>, sized: seq<Pane>, maxWidth: int, maxHeight: int)
    requires Configured(layouts) && layouts != [] && |sized| == |layouts| && maxWidth >= 0 && maxHeight > 0
    requires AllNatural(sized, layouts, maxWidth, maxHeight) && FirstIsHighest(sized)
    ensures sized[0].minHeight > 0 <==> exists n :: 0 <= n < |layouts| && layouts[n].rows != []
  {
    forall n | 0 <= n < |sized| ensures |sized[n].rows| == |layouts[n].rows| && (Need(sized[n]) > 0 <==> layouts[n].rows != []) {
      assert IsNatural(sized[n], layouts[n], maxWidth, maxHeight);
      StackedPositive(layouts[n].rows, sized[n].rows, maxWidth, maxHeight, |sized[n].rows|);
    }
    var top :| 0 <= top < |sized| && Need(sized[top]) == sized[0].minHeight;
    assert sized[0].minHeight > 0 <==> layouts[top].rows != [];
  }

  lemma {:induction false} AllProper(layouts: seq<Pane>, sized: seq<Pane>, maxWidth: int, maxHeight: int)
    requires Configured(layouts) && layouts != [] && |sized| == |layouts| && maxWidth >= 0
    requires AllNatural(sized, layouts, maxWidth, maxHeight) && FirstIsHighest(sized)
    ensures PanesProper(sized, sized[0].minHeight) <==>
      forall n | 0 <= n < |layouts| :: RowsWide(layouts[n].rows, maxWidth > 0)
  {
    forall n | 0 <= n < |sized|
      ensures HeightNeeded(sized[n].rows) <= sized[0].minHeight
      ensures RowsProper(sized[n].rows) <==> RowsWide(layouts[n].rows, maxWidth > 0)
    {
      assert IsNatural(sized[n], layouts[n], maxWidth, maxHeight);
      StackedIsNeeded(sized[n].rows);
      NaturalRowsProper(layouts[n], sized[n], maxWidth, maxHeight);
    }
  }

  lemma {:induction false} NaturalEstablishes(layouts: seq<Pane>, sized: seq<Pane>, maxWidth: int, maxHeight: int)
    requires Configured(layouts) && layouts != [] && |sized| == |layouts| && WidestIs(AllKeys(layouts[0].rows), maxWidth)
    requires maxHeight >= 0 && sized[0].minWidth >= 0
    requires AllNatural(sized, layouts, maxWidth, maxHeight + 2) && FirstIsHighest(sized)
    ensures Invariant(Panes(sized, 0)) <==> PanesWide(layouts)
  {
    SingleWideIs(layouts[0].rows, maxWidth);
    AllProper(layouts, sized, maxWidth, maxHeight + 2);
    SomeHeight(layouts, sized, maxWidth, maxHeight + 2);
    assert IsNatural(sized[0], layouts[0], maxWidth, maxHeight + 2);
  }

  // What kb_new leaves is a state the runs of LayoutRuns start from, if and only if every row of the
  // configuration has a key that gets some width, and there is a row.
  lemma {:induction false} KbNewEstablishes(layouts: seq<Pane>, sized: seq<Pane>, maxWidth: int, maxHeight: int)
    requires Configured(layouts) && layouts != [] && |sized| == |layouts| && WidestIs(AllKeys(layouts[0].rows), maxWidth)
    requires maxHeight >= 0 && SizedBy(sized, layouts, maxWidth, maxHeight + 2)
    ensures Invariant(Panes(sized, 0)) <==> PanesWide(layouts)
  {
    assert MinimaAt(sized, 0);
    NaturalEstablishes(layouts, sized, maxWidth, maxHeight);
  }
}
