// The keyboard's layouts, and kb_size, kb_switch_layout, the minimum-size passes of kb_new and
// kb_find_button over them. Children are the sequences that Boxes shows the linked lists to be;
// vbox, a pointer to one of the layouts, is the index of that layout.
module Layouts {
  import opened Geometry

  datatype Key = Key(x: int, y: int, cWidth: int, cHeight: int, xPad: int, yPad: int, bSize: int,
                     actWidth: int, actHeight: int, isWidthSpec: bool, keySpanWidth: int, singleChar: bool)

  datatype RowBox = RowBox(x: int, y: int, minWidth: int, minHeight: int, actWidth: int, actHeight: int, keys: seq<Key>)

  datatype Pane = Pane(x: int, y: int, minWidth: int, minHeight: int, actWidth: int, actHeight: int, rows: seq<RowBox>)

  datatype Panes = Panes(layouts: seq<Pane>, vbox: nat) {
    predicate Valid() { vbox < |layouts| }
    function Current(): Pane requires Valid() { layouts[vbox] }
  }

  // ---------- what sizing depends on ----------

  // The natural widths of keys: their contents and the borders on both sides.
  function PartsOf(keys: seq<Key>): (parts: seq<int>)
    ensures |parts| == |keys| && forall j | 0 <= j < |keys| :: parts[j] == keys[j].cWidth + 2 * keys[j].bSize
  {
    if keys == [] then [] else [keys[0].cWidth + 2 * keys[0].bSize] + PartsOf(keys[1..])
  }

  function RowsOf(rows: seq<RowBox>): (r: seq<Row>)
    ensures |r| == |rows|
  {
    if rows == [] then []
    else [Row(rows[0].minWidth, rows[0].minHeight, PartsOf(rows[0].keys))] + RowsOf(rows[1..])
  }

  lemma {:induction false} RowIs(rows: seq<RowBox>, i: nat)
    requires i < |rows|
    ensures RowsOf(rows)[i] == Row(rows[i].minWidth, rows[i].minHeight, PartsOf(rows[i].keys))
  {
    if i > 0 {
      RowIs(rows[1..], i - 1);
    }
  }

  function LayoutOf(p: Pane): Layout {
    Layout(p.x, p.y, p.actWidth, p.actHeight, p.minHeight, RowsOf(p.rows))
  }

  // ---------- what sizing produces ----------

  // A key at an offset, with a width, in a row of the given height.
  function PlacedKey(k: Key, x: int, width: int, part: int, band: int, height: int): Key {
    k.(x := x, y := 0, actWidth := width, actHeight := height,
       xPad := width - part, yPad := band - k.cHeight - 2 * k.bSize)
  }

  // The first n keys of a row after sizing.
  function SizedKeys(keys: seq<Key>, parts: seq<int>, shares: seq<int>, width: int, band: int, height: int,
          n: nat): (sized: seq<Key>)
    requires n <= |keys| == |parts| == |shares|
    ensures |sized| == n
  {
    if n == 0 then []
    else SizedKeys(keys, parts, shares, width, band, height, n - 1)
         + [PlacedKey(keys[n - 1], Sum(shares, n - 1), WidthAt(shares, width, n - 1), parts[n - 1], band, height)]
  }

  lemma {:induction false} SizedKeyAt(keys: seq<Key>, parts: seq<int>, shares: seq<int>, width: int, band: int,
          height: int, n: nat, j: nat)
    requires j < n <= |keys| == |parts| == |shares|
    ensures SizedKeys(keys, parts, shares, width, band, height, n)[j]
            == PlacedKey(keys[j], Sum(shares, j), WidthAt(shares, width, j), parts[j], band, height)
  {
    if j < n - 1 {
      SizedKeyAt(keys, parts, shares, width, band, height, n - 1, j);
    }
  }

  // The same with every key at its plain share, before the last one is corrected.
  function SharedKeys(keys: seq<Key>, parts: seq<int>, shares: seq<int>, band: int, height: int,
          n: nat): (shared: seq<Key>)
    requires n <= |keys| == |parts| == |shares|
    ensures |shared| == n
  {
    if n == 0 then []
    else SharedKeys(keys, parts, shares, band, height, n - 1)
         + [PlacedKey(keys[n - 1], Sum(shares, n - 1), shares[n - 1], parts[n - 1], band, height)]
  }

  // Where a row goes, how high it and its keys are, and the parts and shares of its keys.
  datatype Plan = Plan(top: int, band: int, height: int, parts: seq<int>, shares: seq<int>)

  function PlanAt(l: Layout, i: nat): Plan
    requires l.Sizable() && i < |l.rows|
  {
    Plan(Sum(l.Bands(), i), l.Bands()[i], l.KeyHeight(i), l.rows[i].parts, l.RowShares(i))
  }

  function SizedRow(r: RowBox, width: int, p: Plan): RowBox {
    if |p.parts| == |p.shares| == |r.keys| then
      RowBox(0, p.top, r.minWidth, r.minHeight, width, p.band,
             SizedKeys(r.keys, p.parts, p.shares, width, p.band, p.height, |r.keys|))
    else r
  }

  // The first n rows after sizing.
  function SizedRows(rows: seq<RowBox>, l: Layout, n: nat): (sized: seq<RowBox>)
    requires l.Sizable() && n <= |rows| == |l.rows|
    ensures |sized| == n
  {
    if n == 0 then [] else SizedRows(rows, l, n - 1) + [SizedRow(rows[n - 1], l.width, PlanAt(l, n - 1))]
  }

  lemma {:induction false} SizedRowAt(rows: seq<RowBox>, l: Layout, n: nat, i: nat)
    requires l.Sizable() && i < n <= |rows| == |l.rows|
    ensures SizedRows(rows, l, n)[i] == SizedRow(rows[i], l.width, PlanAt(l, i))
  {
    if i < n - 1 {
      SizedRowAt(rows, l, n - 1, i);
    }
  }

  // A window size of zero is replaced by the stored minimum.
  function Defaulted(p: Pane): Pane {
    p.(actWidth := if p.actWidth == 0 then p.minWidth else p.actWidth,
       actHeight := if p.actHeight == 0 then p.minHeight else p.actHeight)
  }

  // Sizing divides by the minimum sizes and corrects the last key of every row.
  predicate Sizable(p: Pane) {
    (p.rows == [] || p.minHeight != 0) && RowsSizable(p.rows)
  }

  predicate RowsSizable(rows: seq<RowBox>) {
    forall i | 0 <= i < |rows| :: rows[i].minWidth != 0 && rows[i].keys != []
  }

  lemma {:induction false} SizableIs(p: Pane)
    ensures LayoutOf(p).Sizable() <==> Sizable(p)
  {
    forall i | 0 <= i < |p.rows|
      ensures RowsOf(p.rows)[i].minWidth == p.rows[i].minWidth && |RowsOf(p.rows)[i].parts| == |p.rows[i].keys|
    {
      RowIs(p.rows, i);
    }
  }

  function SizedPane(p: Pane): (s: Pane)
    requires Sizable(p)
    ensures |s.rows| == |p.rows|
  {
    var d := Defaulted(p);
    SizableIs(d);
    d.(rows := SizedRows(d.rows, LayoutOf(d), |d.rows|))
  }

  // ---------- the operations ----------

  datatype Op = Resize(width: int, height: int) | Repaint | Switch(number: nat)

  predicate CanDo(k: Panes, op: Op) {
    && k.Valid() && (op.Switch? ==> op.number < |k.layouts|)
    && var rows := k.layouts[if op.Switch? then op.number else k.vbox].rows;
       (rows == [] || k.Current().minHeight != 0) && RowsSizable(rows)
  }

  // The pane that the operation sizes.
  function Prepared(k: Panes, op: Op): (p: Panes)
    requires CanDo(k, op)
    ensures p.Valid() && |p.layouts| == |k.layouts| && Sizable(p.Current())
  {
    match op
    case Resize(w, h) => k.(layouts := k.layouts[k.vbox := k.Current().(actWidth := w, actHeight := h)])
    case Repaint => k
    case Switch(n) =>
      var from := k.Current();
      Panes(k.layouts[n := k.layouts[n].(actWidth := from.actWidth, actHeight := from.actHeight,
                                         minWidth := from.minWidth, minHeight := from.minHeight)], n)
  }

  function Do(k: Panes, op: Op): (k': Panes)
    requires CanDo(k, op)
    ensures k'.Valid() && |k'.layouts| == |k.layouts|
  {
    var p := Prepared(k, op);
    p.(layouts := p.layouts[p.vbox := SizedPane(p.Current())])
  }

  // ---------- the operations, step by step ----------

  class Keyboard {
    var layouts: seq<Pane>
    var vbox: nat

    constructor (layouts: seq<Pane>)
      ensures Abs() == Panes(layouts, 0)
    {
      this.layouts, vbox := layouts, 0;
    }

    function Abs(): Panes
      reads this
    {
      Panes(layouts, vbox)
    }

    // The body of the loop over a row's keys.
    method PlaceKey(k: Key, cx: int, minWidth: int, width: int, band: int, lastRow: bool, ghost share: int)
      returns (but: Key)
      requires minWidth != 0 && share == Scaled(k.cWidth + 2 * k.bSize, minWidth, width)
      ensures but == PlacedKey(k, cx, share, k.cWidth + 2 * k.bSize, band, band - if lastRow then 1 else 0)
    {
      but := k.(x := cx);
      var butTotalWidth := but.cWidth + 2 * but.bSize;
      but := but.(xPad := Scaled(butTotalWidth, minWidth, width));
      but := but.(xPad := but.xPad - butTotalWidth);
      but := but.(actWidth := but.cWidth + but.xPad + 2 * but.bSize);
      but := but.(y := 0);
      but := but.(yPad := band - but.cHeight - 2 * but.bSize);
      but := but.(actHeight := band);
      if lastRow {
        but := but.(actHeight := but.actHeight - 1);
      }
    }

    // The loop over a row's keys: every key gets its share.
    method ShareKeys(keys: seq<Key>, minWidth: int, width: int, band: int, lastRow: bool, ghost parts: seq<int>)
      returns (sized: seq<Key>, cx: int)
      requires minWidth != 0 && parts == PartsOf(keys)
      ensures cx == Sum(Shares(parts, minWidth, width), |keys|)
      ensures sized == SharedKeys(keys, parts, Shares(parts, minWidth, width), band, band - if lastRow then 1 else 0, |keys|)
    {
      ghost var shares := Shares(parts, minWidth, width);
      ghost var height := band - if lastRow then 1 else 0;
      sized, cx := [], 0;
      var j := 0;
      while j < |keys|
        invariant 0 <= j <= |keys|
        invariant cx == Sum(shares, j)
        invariant sized == SharedKeys(keys, parts, shares, band, height, j)
      {
        ShareIs(parts, minWidth, width, j);
        var but := PlaceKey(keys[j], cx, minWidth, width, band, lastRow, shares[j]);
        cx := cx + but.actWidth;
        sized := sized + [but];
        j := j + 1;
      }
    }

    // One row: every key gets its share, and the last one what is left.
    method SizeKeys(keys: seq<Key>, minWidth: int, width: int, band: int, lastRow: bool, ghost parts: seq<int>)
      returns (sized: seq<Key>)
      requires keys != [] && minWidth != 0 && parts == PartsOf(keys)
      ensures sized == SizedKeys(keys, parts, Shares(parts, minWidth, width), width, band,
                                 band - if lastRow then 1 else 0, |keys|)
    {
      var shared, cx := ShareKeys(keys, minWidth, width, band, lastRow, parts);
      sized := TakeRest(shared, width - cx - 1);
      LastTakesRest(keys, parts, Shares(parts, minWidth, width), width, band, band - if lastRow then 1 else 0);
    }

    // The correction of a row's last key.
    method TakeRest(keys: seq<Key>, rest: int) returns (r: seq<Key>)
      requires keys != []
      ensures r == var last := |keys| - 1;
                   keys[last := keys[last].(xPad := keys[last].xPad + rest, actWidth := keys[last].actWidth + rest)]
    {
      var last := |keys| - 1;
      r := keys[last := keys[last].(xPad := keys[last].xPad + rest)];
      r := r[last := r[last].(actWidth := r[last].actWidth + rest)];
    }

    // The body of the loop over the rows.
    method SizeRow(r: RowBox, cy: int, pane: Pane, lastRow: bool, ghost l: Layout, ghost i: nat)
      returns (row: RowBox, yPad: int)
      requires l.Sizable() && i < |l.rows| && cy == Sum(l.Bands(), i) && (lastRow <==> i == |l.rows| - 1)
      requires l.rows[i] == Row(r.minWidth, r.minHeight, PartsOf(r.keys))
      requires l.minHeight == pane.minHeight && l.height == pane.actHeight && l.width == pane.actWidth
      ensures yPad == l.Bands()[i] && row == SizedRow(r, l.width, PlanAt(l, i))
    {
      row := r.(y := cy, x := 0);
      yPad := Scaled(row.minHeight, pane.minHeight, pane.actHeight);
      assert l.Needs()[i] == row.minHeight;
      ShareIs(l.Needs(), l.minHeight, l.height, i);
      var keys := SizeKeys(row.keys, row.minWidth, pane.actWidth, yPad, lastRow, l.rows[i].parts);
      row := row.(keys := keys, actHeight := yPad, actWidth := pane.actWidth);
    }

    // The loop over the rows, from the top down.
    method SizeRows(pane: Pane, ghost l: Layout) returns (rows: seq<RowBox>)
      requires l == LayoutOf(pane) && l.Sizable()
      ensures rows == SizedRows(pane.rows, l, |pane.rows|)
    {
      rows := [];
      var cy := 0;
      var i := 0;
      while i < |pane.rows|
        invariant 0 <= i <= |pane.rows|
        invariant cy == Sum(l.Bands(), i)
        invariant rows == SizedRows(pane.rows, l, i)
      {
        RowIs(pane.rows, i);
        var row, yPad := SizeRow(pane.rows[i], cy, pane, i == |pane.rows| - 1, l, i);
        cy := cy + yPad;
        rows := rows + [row];
        i := i + 1;
      }
    }

    // kb_size.
    method KbSize()
      requires Abs().Valid() && Sizable(layouts[vbox])
      modifies this`layouts
      ensures layouts == old(layouts)[vbox := SizedPane(old(layouts[vbox]))]
    {
      var pane := layouts[vbox];
      if pane.actWidth == 0 {
        pane := pane.(actWidth := pane.minWidth);
      }
      if pane.actHeight == 0 {
        pane := pane.(actHeight := pane.minHeight);
      }
      SizableIs(pane);
      var rows := SizeRows(pane, LayoutOf(pane));
      layouts := layouts[vbox := pane.(rows := rows)];
    }

    // xkbd_resize.
    method Resize(width: int, height: int)
      requires CanDo(Abs(), Op.Resize(width, height))
      modifies this
      ensures Abs() == Do(old(Abs()), Op.Resize(width, height))
    {
      layouts := layouts[vbox := layouts[vbox].(actWidth := width, actHeight := height)];
      assert Abs() == Prepared(old(Abs()), Op.Resize(width, height));
      KbSize();
    }

    // xkbd_repaint.
    method Repaint()
      requires CanDo(Abs(), Op.Repaint)
      modifies this
      ensures Abs() == Do(old(Abs()), Op.Repaint)
    {
      assert Abs() == Prepared(Abs(), Op.Repaint);
      KbSize();
    }

    // kb_switch_layout: the new layout takes over the size and the stored minimum of the old one.
    method SwitchLayout(number: nat)
      requires CanDo(Abs(), Switch(number))
      modifies this
      ensures Abs() == Do(old(Abs()), Switch(number))
    {
      var w, h := layouts[vbox].actWidth, layouts[vbox].actHeight;
      var mw, mh := layouts[vbox].minWidth, layouts[vbox].minHeight;
      vbox := number;
      layouts := layouts[vbox := layouts[vbox].(actWidth := w, actHeight := h)];
      layouts := layouts[vbox := layouts[vbox].(minWidth := mw, minHeight := mh)];
      assert Abs() == Prepared(old(Abs()), Switch(number));
      KbSize();
    }
  }

  // Before the correction, all keys but the last are as they stay.
  lemma {:induction false} SharedAreSized(keys: seq<Key>, parts: seq<int>, shares: seq<int>, width: int, band: int,
          height: int, n: nat)
    requires n < |keys| == |parts| == |shares|
    ensures SharedKeys(keys, parts, shares, band, height, n) == SizedKeys(keys, parts, shares, width, band, height, n)
  {
    if n > 0 {
      SharedAreSized(keys, parts, shares, width, band, height, n - 1);
    }
  }

  // The correction makes the shared row the sized one.
  lemma {:induction false} LastTakesRest(keys: seq<Key>, parts: seq<int>, shares: seq<int>, width: int, band: int,
          height: int)
    requires keys != [] && |parts| == |shares| == |keys|
    ensures var shared, last := SharedKeys(keys, parts, shares, band, height, |keys|), |keys| - 1;
            var rest := width - Sum(shares, |keys|) - 1;
            shared[last := shared[last].(xPad := shared[last].xPad + rest, actWidth := shared[last].actWidth + rest)]
            == SizedKeys(keys, parts, shares, width, band, height, |keys|)
  {
    var last := |keys| - 1;
    SharedAreSized(keys, parts, shares, width, band, height, last);
    var before := SharedKeys(keys, parts, shares, band, height, last);
    var k := PlacedKey(keys[last], Sum(shares, last), shares[last], parts[last], band, height);
    var rest := width - Sum(shares, |keys|) - 1;
    assert (before + [k])[last := k.(xPad := k.xPad + rest, actWidth := k.actWidth + rest)]
           == before + [PlacedKey(keys[last], Sum(shares, last), WidthAt(shares, width, last), parts[last], band, height)];
  }
}
