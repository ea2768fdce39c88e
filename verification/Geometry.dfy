// The arithmetic of kb_size and kb_find_button on plain numbers: how a row's width and the
// window's height are shared out, where every key ends up, and which key a point hits. The source
// computes (int)((float)a / b * c); here that is the exact quotient of a * c by b, truncated
// toward zero, and the rounding of float is abstracted from.
module Geometry {

  // C's conversion to int drops the fraction.
  function Truncated(a: int, b: int): int
    requires b != 0
  {
    var q := (if a < 0 then -a else a) / (if b < 0 then -b else b);
    if (a < 0) == (b < 0) then q else -q
  }

  function Scaled(part: int, whole: int, size: int): int
    requires whole != 0
  {
    Truncated(part * size, whole)
  }

  function Sum(s: seq<int>, n: nat): int
    requires n <= |s|
  {
    if n == 0 then 0 else Sum(s, n - 1) + s[n - 1]
  }

  // ---------- one dimension: shares and where they start ----------

  // The share of every part.
  function Shares(parts: seq<int>, whole: int, size: int): (shares: seq<int>)
    requires whole != 0
    ensures |shares| == |parts|
  {
    if parts == [] then []
    else Shares(parts[..|parts| - 1], whole, size) + [Scaled(parts[|parts| - 1], whole, size)]
  }

  lemma {:induction false} ShareIs(parts: seq<int>, whole: int, size: int, i: nat)
    requires whole != 0 && i < |parts|
    ensures Shares(parts, whole, size)[i] == Scaled(parts[i], whole, size)
    decreases |parts|
  {
    if i < |parts| - 1 {
      ShareIs(parts[..|parts| - 1], whole, size, i);
    }
  }

  predicate NonNegative(parts: seq<int>) {
    forall i | 0 <= i < |parts| :: parts[i] >= 0
  }

  lemma {:induction false} Quotient(a: nat, b: nat)
    requires b > 0
    ensures 0 <= a / b && b * (a / b) <= a < b * (a / b) + b
  {
  }

  lemma {:induction false} Times(a: int, b: int, c: int)
    requires a >= b && c >= 0
    ensures a * c >= b * c
  {
  }

  lemma {:induction false} ShareBounds(part: int, whole: int, size: int)
    requires part >= 0 && whole > 0 && size >= 0
    ensures 0 <= Scaled(part, whole, size)
    ensures whole * Scaled(part, whole, size) <= part * size < whole * Scaled(part, whole, size) + whole
  {
    Times(part, 0, size);
    Quotient(part * size, whole);
  }

  lemma {:induction false} SharesNonNegative(parts: seq<int>, whole: int, size: int)
    requires NonNegative(parts) && whole > 0 && size >= 0
    ensures NonNegative(Shares(parts, whole, size))
  {
    forall i | 0 <= i < |parts| ensures Shares(parts, whole, size)[i] >= 0 {
      ShareIs(parts, whole, size, i);
      ShareBounds(parts[i], whole, size);
    }
  }

  // The shares add up to at most their part of the size, and fall short by less than one each.
  lemma {:induction false} SumBounds(parts: seq<int>, whole: int, size: int, n: nat)
    requires n <= |parts| && NonNegative(parts) && whole > 0 && size >= 0
    ensures whole * Sum(Shares(parts, whole, size), n) <= Sum(parts, n) * size
    ensures n > 0 ==> Sum(parts, n) * size < whole * Sum(Shares(parts, whole, size), n) + n * whole
  {
    if n > 0 {
      SumBounds(parts, whole, size, n - 1);
      ShareIs(parts, whole, size, n - 1);
      ShareBounds(parts[n - 1], whole, size);
      Distribute(Sum(Shares(parts, whole, size), n - 1), Scaled(parts[n - 1], whole, size), whole);
      Distribute(Sum(parts, n - 1), parts[n - 1], size);
      Distribute(n - 1, 1, whole);
    }
  }

  lemma {:induction false} Distribute(a: int, b: int, c: int)
    ensures (a + b) * c == a * c + b * c
    ensures c * (a + b) == c * a + c * b
  {
  }

  lemma {:induction false} SumsGrow(s: seq<int>, i: nat, j: nat)
    requires i <= j <= |s| && NonNegative(s)
    ensures Sum(s, i) <= Sum(s, j)
    decreases j
  {
    if i < j {
      SumsGrow(s, i, j - 1);
    }
  }

  // ---------- a row ----------

  // Key j's width: its share, and for the last key what is left of the row, less one.
  function WidthAt(shares: seq<int>, size: int, j: nat): int
    requires j < |shares|
  {
    shares[j] + if j == |shares| - 1 then size - Sum(shares, |shares|) - 1 else 0
  }

  function WidthSum(shares: seq<int>, size: int, n: nat): int
    requires n <= |shares|
  {
    if n == 0 then 0 else WidthSum(shares, size, n - 1) + WidthAt(shares, size, n - 1)
  }

  lemma {:induction false} WidthsBeforeLast(shares: seq<int>, size: int, n: nat)
    requires n < |shares|
    ensures WidthSum(shares, size, n) == Sum(shares, n)
  {
    if n > 0 {
      WidthsBeforeLast(shares, size, n - 1);
    }
  }

  // Conservation with a rounding bound: in a non-empty row whose natural widths add up to its
  // positive minimum width, the truncated shares fall short of the row by less than one pixel a
  // key, and after the correction of the last key the widths add up to the row less one pixel, with
  // every key starting where the one before it ends.
  lemma {:induction false} WidthConservation(parts: seq<int>, whole: int, size: int)
    requires parts != [] && NonNegative(parts) && whole > 0 && size >= 0 && Sum(parts, |parts|) == whole
    ensures var shares := Shares(parts, whole, size);
            && size - |parts| < Sum(shares, |parts|) <= size
            && WidthSum(shares, size, |parts|) == size - 1
            && forall j | 0 <= j < |parts| - 1 :: Sum(shares, j + 1) == Sum(shares, j) + WidthAt(shares, size, j)
  {
    var n, shares := |parts|, Shares(parts, whole, size);
    var total := Sum(shares, n);
    SumBounds(parts, whole, size, n);
    WidthsBeforeLast(shares, size, n - 1);
    CancelLeft(whole, total, size);
    Distribute(total, n, whole);
    CancelStrict(whole, size, total + n);
  }

  lemma {:induction false} CancelLeft(c: int, a: int, b: int)
    requires c > 0
    ensures c * a <= c * b ==> a <= b
  {
    if a > b {
      assert c * (a - b) > 0;
    }
  }

  lemma {:induction false} CancelStrict(c: int, a: int, b: int)
    requires c > 0
    ensures c * a < c * b ==> a < b
  {
    if a >= b {
      assert c * (a - b) >= 0;
    }
  }

  // Every key of a row lies within the row, and a key starts at or after the end of every key
  // before it.
  lemma {:induction false} KeysInRow(parts: seq<int>, whole: int, size: int, j: nat)
    requires NonNegative(parts) && whole > 0 && size >= 0 && Sum(parts, |parts|) == whole && j < |parts|
    ensures var shares := Shares(parts, whole, size);
            0 <= Sum(shares, j) && Sum(shares, j) + WidthAt(shares, size, j) <= size
  {
    WidthConservation(parts, whole, size);
    SharesNonNegative(parts, whole, size);
    SumsGrow(Shares(parts, whole, size), 0, j);
    SumsGrow(Shares(parts, whole, size), j + 1, |parts|);
  }

  lemma {:induction false} KeysApart(parts: seq<int>, whole: int, size: int, j: nat, k: nat)
    requires NonNegative(parts) && whole > 0 && size >= 0 && j < k < |parts|
    ensures var shares := Shares(parts, whole, size); Sum(shares, j) + WidthAt(shares, size, j) <= Sum(shares, k)
  {
    SharesNonNegative(parts, whole, size);
    SumsGrow(Shares(parts, whole, size), j + 1, k);
  }

  // ---------- the rows in the window ----------

  // Row heights share out the window; if the stored minimum is at least what the rows need, the
  // stacked rows never exceed the window.
  lemma {:induction false} RowsFit(needs: seq<int>, stored: int, height: int, i: nat)
    requires NonNegative(needs) && stored > 0 && height >= 0 && Sum(needs, |needs|) <= stored && i < |needs|
    ensures var bands := Shares(needs, stored, height);
            0 <= Sum(bands, i) && 0 <= bands[i] && Sum(bands, i) + bands[i] <= height
  {
    var bands := Shares(needs, stored, height);
    SharesNonNegative(needs, stored, height);
    SumsGrow(bands, 0, i);
    SumsGrow(bands, i + 1, |needs|);
    SumBounds(needs, stored, height, |needs|);
    Times(stored, Sum(needs, |needs|), height);
    CancelLeft(stored, Sum(bands, |needs|), height);
  }

  lemma {:induction false} WholeShare(part: int, whole: int)
    requires part >= 0 && whole > 0
    ensures Scaled(part, whole, whole) == part
  {
    var share := Scaled(part, whole, whole);
    ShareBounds(part, whole, whole);
    assert whole * (share - part) <= 0 && whole * (part - share - 1) < 0;
    CancelLeft(whole, share - part, 0);
    CancelStrict(whole, part - share - 1, 0);
  }

  lemma {:induction false} WholeShares(parts: seq<int>, whole: int, n: nat)
    requires NonNegative(parts) && whole > 0 && n <= |parts|
    ensures Sum(Shares(parts, whole, whole), n) == Sum(parts, n)
  {
    if n > 0 {
      WholeShares(parts, whole, n - 1);
      ShareIs(parts, whole, whole, n - 1);
      WholeShare(parts[n - 1], whole);
    }
  }

  // That minimum is exactly what it takes: rows that fit windows of every height need no more.
  lemma {:induction false} FitsExactly(needs: seq<int>, stored: int)
    requires NonNegative(needs) && stored > 0
    ensures (forall height: nat :: Sum(Shares(needs, stored, height), |needs|) <= height) <==> Sum(needs, |needs|) <= stored
  {
    WholeShares(needs, stored, |needs|);
    assert Sum(Shares(needs, stored, stored), |needs|) == Sum(needs, |needs|);
    if Sum(needs, |needs|) <= stored {
      forall height: nat ensures Sum(Shares(needs, stored, height), |needs|) <= height {
        SumBounds(needs, stored, height, |needs|);
        Times(stored, Sum(needs, |needs|), height);
        CancelLeft(stored, Sum(Shares(needs, stored, height), |needs|), height);
      }
    }
  }

  // ---------- rectangles ----------

  datatype Rect = Rect(x: int, y: int, w: int, h: int) {
    // The points strictly inside.
    predicate Contains(px: int, py: int) {
      x < px < x + w && y < py < y + h
    }
  }

  // What sizing depends on: the window's corner and size, the stored minimum height, and for every
  // row its minimum size and the natural widths of its keys.
  datatype Row = Row(minWidth: int, minHeight: int, parts: seq<int>)

  function NeedsOf(rows: seq<Row>): (needs: seq<int>)
    ensures |needs| == |rows| && forall i | 0 <= i < |rows| :: needs[i] == rows[i].minHeight
  {
    if rows == [] then [] else [rows[0].minHeight] + NeedsOf(rows[1..])
  }

  datatype Layout = Layout(x: int, y: int, width: int, height: int, minHeight: int, rows: seq<Row>) {
    // Sizing divides by these.
    predicate Sizable() {
      (rows == [] || minHeight != 0) && forall i | 0 <= i < |rows| :: rows[i].minWidth != 0 && rows[i].parts != []
    }

    // A layout as kb_new leaves it and as the window system sizes it.
    predicate Proper() {
      && width >= 0 && height >= 0 && minHeight > 0
      && NonNegative(Needs()) && Sum(Needs(), |rows|) <= minHeight
      && forall i | 0 <= i < |rows| ::
           rows[i].parts != [] && NonNegative(rows[i].parts)
           && rows[i].minWidth > 0 && Sum(rows[i].parts, |rows[i].parts|) == rows[i].minWidth
    }

    function Needs(): (needs: seq<int>)
      ensures |needs| == |rows|
    {
      NeedsOf(rows)
    }

    predicate Has(i: int, j: int) {
      0 <= i < |rows| && 0 <= j < |rows[i].parts|
    }

    function Bands(): (bands: seq<int>)
      requires rows == [] || minHeight != 0
      ensures |bands| == |rows|
    {
      if rows == [] then [] else Shares(Needs(), minHeight, height)
    }

    function RowShares(i: nat): (shares: seq<int>)
      requires Sizable() && i < |rows|
      ensures |shares| == |rows[i].parts|
    {
      Shares(rows[i].parts, rows[i].minWidth, width)
    }

    // The keys of the last row are one pixel lower than the row.
    function KeyHeight(i: nat): int
      requires Sizable() && i < |rows|
    {
      Bands()[i] - if i == |rows| - 1 then 1 else 0
    }

    // Where key j of row i is on the screen.
    function KeyRect(i: nat, j: nat): Rect
      requires Sizable() && Has(i, j)
    {
      Rect(x + Sum(RowShares(i), j), y + Sum(Bands(), i), WidthAt(RowShares(i), width, j), KeyHeight(i))
    }
  }

  // Every key lies inside the window.
  lemma {:induction false} KeysInWindow(l: Layout, i: nat, j: nat)
    requires l.Proper() && l.Has(i, j)
    ensures l.Sizable()
    ensures var r := l.KeyRect(i, j); l.x <= r.x && r.x + r.w <= l.x + l.width && l.y <= r.y && r.y + r.h <= l.y + l.height
  {
    KeysInRow(l.rows[i].parts, l.rows[i].minWidth, l.width, j);
    RowsFit(l.Needs(), l.minHeight, l.height, i);
  }

  predicate Apart(a: Rect, b: Rect) {
    a.x + a.w <= b.x || b.x + b.w <= a.x || a.y + a.h <= b.y || b.y + b.h <= a.y
  }

  // Different keys do not overlap.
  lemma {:induction false} KeysDisjoint(l: Layout, i: nat, j: nat, i': nat, j': nat)
    requires l.Proper() && l.Has(i, j) && l.Has(i', j') && (i != i' || j != j')
    ensures l.Sizable() && Apart(l.KeyRect(i, j), l.KeyRect(i', j'))
  {
    if i == i' {
      if j < j' { SameRowApart(l, i, j, j'); } else { SameRowApart(l, i, j', j); }
    } else {
      if i < i' { RowsApart(l, i, j, i', j'); } else { RowsApart(l, i', j', i, j); }
    }
  }

  lemma {:induction false} SameRowApart(l: Layout, i: nat, j: nat, k: nat)
    requires l.Proper() && l.Has(i, j) && l.Has(i, k) && j < k
    ensures l.Sizable() && l.KeyRect(i, j).x + l.KeyRect(i, j).w <= l.KeyRect(i, k).x
  {
    KeysApart(l.rows[i].parts, l.rows[i].minWidth, l.width, j, k);
  }

  lemma {:induction false} RowsApart(l: Layout, i: nat, j: nat, i': nat, j': nat)
    requires l.Proper() && l.Has(i, j) && l.Has(i', j') && i < i'
    ensures l.Sizable() && l.KeyRect(i, j).y + l.KeyRect(i, j).h <= l.KeyRect(i', j').y
  {
    SharesNonNegative(l.Needs(), l.minHeight, l.height);
    SumsGrow(l.Bands(), i + 1, i');
  }

  // So a point is strictly inside at most one key, and a point on an edge of a key is strictly
  // inside no other.
  lemma {:induction false} AtMostOneKey(l: Layout, px: int, py: int, i: nat, j: nat, i': nat, j': nat)
    requires l.Proper() && l.Sizable() && l.Has(i, j) && l.Has(i', j')
    requires l.KeyRect(i, j).Contains(px, py)
    requires var r := l.KeyRect(i', j'); r.x <= px <= r.x + r.w && r.y <= py <= r.y + r.h && r.w >= 0 && r.h >= 0
    ensures i == i' && j == j'
  {
    if i != i' || j != j' {
      KeysDisjoint(l, i, j, i', j');
    }
  }
}
