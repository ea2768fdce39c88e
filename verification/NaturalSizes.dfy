// The sizes that kb_new leaves, written out without the functions that compute them: every key's, in
// terms of the settings it was read from, and the minimum sizes of every row and layout.
module NaturalSizes {
  import opened Wrappers
  import opened Geometry
  import opened Layouts
  import opened LayoutRuns
  import opened MinimumSizes
  import opened KeyboardFromText
  import Config = ConfigParser

  // ---------- keys ----------

  // A key of kb_new: a multiple of the widest one-character key, that key's width, or its own width.
  // All keys are two pixels higher than the tallest of the first layout.
  lemma {:induction false} KeySizes(sized: seq<Pane>, unsized: seq<Pane>, width: int, height: int, n: nat, i: nat, j: nat)
    requires |sized| == |unsized| && SizedBy(sized, unsized, width, height + 2)
    requires n < |unsized| && i < |unsized[n].rows| && j < |unsized[n].rows[i].keys|
    ensures |sized[n].rows| == |unsized[n].rows| && |sized[n].rows[i].keys| == |unsized[n].rows[i].keys|
    ensures var (k, was) := (sized[n].rows[i].keys[j], unsized[n].rows[i].keys[j]);
            && k == was.(cWidth := k.cWidth, cHeight := height + 2)
            && k.cWidth == (if was.keySpanWidth != 0 then was.keySpanWidth * width
                            else if !was.isWidthSpec && was.singleChar then width else was.cWidth)
  {
    RowIsNatural(sized, unsized, width, height, n, i);
    NaturalKeyAt(unsized[n].rows[i].keys, width, height + 2, |unsized[n].rows[i].keys|, j);
  }

  lemma {:induction false} RowIsNatural(sized: seq<Pane>, unsized: seq<Pane>, width: int, height: int, n: nat, i: nat)
    requires |sized| == |unsized| && SizedBy(sized, unsized, width, height + 2)
    requires n < |unsized| && i < |unsized[n].rows|
    ensures |sized[n].rows| == |unsized[n].rows| && sized[n].rows[i] == NaturalRow(unsized[n].rows[i], width, height + 2)
  {
    assert IsNatural(sized[n], unsized[n], width, height + 2);
    NaturalRowAt(unsized[n].rows, width, height + 2, |unsized[n].rows|, i);
  }

  // Every label that there is has one character, and there is no image.
  predicate ShortLabels(k: Config.KeyDef) {
    && (k.defaultTxt.Some? ==> |k.defaultTxt.value| == 1) && (k.shiftTxt.Some? ==> |k.shiftTxt.value| == 1)
    && (k.modTxt.Some? ==> |k.modTxt.value| == 1) && k.image == None
  }

  // The same for a key of the configuration.
  lemma {:induction false} TextKeySizes(layouts: seq<Config.Rows>, at: Place, sized: seq<Pane>, width: int, height: int,
          n: nat, i: nat, j: nat)
    requires |sized| == |layouts| && SizedBy(sized, PanesOf(layouts, at), width, height + 2)
    requires n < |layouts| && i < |layouts[n]| && j < |layouts[n][i]|
    ensures |sized[n].rows| == |layouts[n]| && |sized[n].rows[i].keys| == |layouts[n][i]|
    ensures var (k, was) := (sized[n].rows[i].keys[j], layouts[n][i][j]);
            && k.cHeight == height + 2 && k.bSize == 0
            && k.cWidth == (if was.keySpanWidth != 0 then was.keySpanWidth * width
                            else if !was.isWidthSpec && ShortLabels(was) then width else was.cWidth)
  {
    KeySizes(sized, PanesOf(layouts, at), width, height, n, i, j);
  }

  // The width that short keys share is the largest of their own in the first layout, and the height
  // the largest of those that no setting fixed.
  lemma {:induction false} TextMaxima(layouts: seq<Config.Rows>, at: Place, width: int, height: int, i: nat, j: nat)
    requires layouts != [] && i < |layouts[0]| && j < |layouts[0][i]|
    requires WidestIs(AllKeys(PanesOf(layouts, at)[0].rows), width) && TallestIs(AllKeys(PanesOf(layouts, at)[0].rows), height)
    ensures var k := layouts[0][i][j];
            && (!k.isWidthSpec && ShortLabels(k) ==> k.cWidth <= width)
            && (!k.isWidthSpec ==> k.cHeight <= height)
  {
    var rows := PanesOf(layouts, at)[0].rows;
    var m := KeyIsAmongAll(rows, i, j);
    assert AllKeys(rows)[m] == ButtonOf(layouts[0][i][j]);
  }

  lemma {:induction false} KeyIsAmongAll(rows: seq<RowBox>, i: nat, j: nat) returns (m: nat)
    requires i < |rows| && j < |rows[i].keys|
    ensures m < |AllKeys(rows)| && AllKeys(rows)[m] == rows[i].keys[j]
    decreases |rows|
  {
    var before := rows[..|rows| - 1];
    if i < |rows| - 1 {
      m := KeyIsAmongAll(before, i, j);
    } else {
      m := |AllKeys(before)| + j;
    }
  }

  // ---------- rows and layouts ----------

  function WidthOf(keys: seq<Key>, n: nat): int
    requires n <= |keys|
  {
    if n == 0 then 0 else WidthOf(keys, n - 1) + keys[n - 1].cWidth + 2 * keys[n - 1].bSize
  }

  lemma {:induction false} WidthIsSum(keys: seq<Key>, n: nat)
    requires n <= |keys|
    ensures WidthOf(keys, n) == Sum(PartsOf(keys), n)
  {
    if n > 0 {
      WidthIsSum(keys, n - 1);
    }
  }

  // A row is as wide as its keys together, with their borders, and as high as the highest of them.
  lemma {:induction false} RowMinima(sized: seq<Pane>, unsized: seq<Pane>, width: int, height: int, n: nat, i: nat)
    requires |sized| == |unsized| && SizedBy(sized, unsized, width, height + 2)
    requires n < |unsized| && i < |unsized[n].rows|
    ensures |sized[n].rows| == |unsized[n].rows|
    ensures var row := sized[n].rows[i];
            && row.minWidth == WidthOf(row.keys, |row.keys|)
            && (forall j | 0 <= j < |row.keys| :: row.keys[j].cHeight + 2 * row.keys[j].bSize <= row.minHeight)
            && (row.minHeight == 0
                || exists j :: 0 <= j < |row.keys| && row.keys[j].cHeight + 2 * row.keys[j].bSize == row.minHeight)
  {
    RowIsNatural(sized, unsized, width, height, n, i);
    var row := sized[n].rows[i];
    WidthIsSum(row.keys, |row.keys|);
    TallestIsOne(row.keys, |row.keys|);
    forall j | 0 <= j < |row.keys| ensures row.keys[j].cHeight + 2 * row.keys[j].bSize <= row.minHeight {
      TallestCovers(row.keys, |row.keys|, j);
    }
  }

  lemma {:induction false} TallestIsOne(keys: seq<Key>, n: nat)
    requires n <= |keys|
    ensures TallestKey(keys, n) == 0 || exists j :: 0 <= j < n && keys[j].cHeight + 2 * keys[j].bSize == TallestKey(keys, n)
  {
    if n > 0 {
      TallestIsOne(keys, n - 1);
    }
  }

  // A layout's minimum width is at least that of its rows and of those of the layouts before it.
  lemma {:induction false} NoneIsWider(sized: seq<Pane>, unsized: seq<Pane>, width: int, height: int, n: nat, m: nat, i: nat)
    requires |sized| == |unsized| && SizedBy(sized, unsized, width, height)
    requires m <= n < |sized| && i < |sized[m].rows|
    ensures sized[m].rows[i].minWidth <= sized[n].minWidth
  {
    assert MinimaAt(sized, n);
    var r := RowIsAmong(sized, n + 1, m, i);
  }

  // And it is that of one of these rows, or 0.
  lemma {:induction false} WidestIsOne(sized: seq<Pane>, unsized: seq<Pane>, width: int, height: int, n: nat)
    returns (at: (nat, nat))
    requires |sized| == |unsized| && SizedBy(sized, unsized, width, height) && n < |sized|
    ensures sized[n].minWidth == 0
            || (at.0 <= n && at.1 < |sized[at.0].rows| && sized[at.0].rows[at.1].minWidth == sized[n].minWidth)
  {
    assert MinimaAt(sized, n);
    at := (0, 0);
    if sized[n].minWidth != 0 {
      var r :| 0 <= r < |RowsUpTo(sized, n + 1)| && RowsUpTo(sized, n + 1)[r].minWidth == sized[n].minWidth;
      at := RowComesFrom(sized, n + 1, r);
    }
  }

  function HeightOf(rows: seq<RowBox>, n: nat): int
    requires n <= |rows|
  {
    if n == 0 then 0 else HeightOf(rows, n - 1) + rows[n - 1].minHeight
  }

  lemma {:induction false} HeightIsStacked(rows: seq<RowBox>, n: nat)
    requires n <= |rows|
    ensures HeightOf(rows, n) == Stacked(rows, n)
  {
    if n > 0 {
      HeightIsStacked(rows, n - 1);
    }
  }

  // A layout's minimum height is the sum of its rows'; the first one's is the largest of these sums.
  lemma {:induction false} HeightMinima(sized: seq<Pane>, unsized: seq<Pane>, width: int, height: int, n: nat)
    requires |sized| == |unsized| && SizedBy(sized, unsized, width, height) && n < |sized|
    ensures n > 0 ==> sized[n].minHeight == HeightOf(sized[n].rows, |sized[n].rows|)
    ensures HeightOf(sized[n].rows, |sized[n].rows|) <= sized[0].minHeight
    ensures exists m :: 0 <= m < |sized| && HeightOf(sized[m].rows, |sized[m].rows|) == sized[0].minHeight
  {
    assert MinimaAt(sized, n) && Need(sized[n]) <= sized[0].minHeight;
    HeightIsStacked(sized[n].rows, |sized[n].rows|);
    var top :| 0 <= top < |sized| && Need(sized[top]) == sized[0].minHeight;
    HeightIsStacked(sized[top].rows, |sized[top].rows|);
  }

  lemma {:induction false} RowIsAmong(sized: seq<Pane>, n: nat, m: nat, i: nat) returns (r: nat)
    requires m < n <= |sized| && i < |sized[m].rows|
    ensures r < |RowsUpTo(sized, n)| && RowsUpTo(sized, n)[r] == sized[m].rows[i]
  {
    if m < n - 1 {
      r := RowIsAmong(sized, n - 1, m, i);
    } else {
      r := |RowsUpTo(sized, n - 1)| + i;
    }
  }

  lemma {:induction false} RowComesFrom(sized: seq<Pane>, n: nat, r: nat) returns (at: (nat, nat))
    requires n <= |sized| && r < |RowsUpTo(sized, n)|
    ensures at.0 < n && at.1 < |sized[at.0].rows| && RowsUpTo(sized, n)[r] == sized[at.0].rows[at.1]
  {
    var before := |RowsUpTo(sized, n - 1)|;
    if r < before {
      at := RowComesFrom(sized, n - 1, r);
    } else {
      at := (n - 1, r - before);
    }
  }
}
