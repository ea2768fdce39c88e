// What the layout engine keeps over whole runs of resizes, repaints and layout switches, and what
// hit-testing finds in the result.
module LayoutRuns {
  import opened Wrappers
  import opened Geometry
  import opened Layouts

  // ---------- sizing and its inputs ----------

  // What sizing leaves alone.
  predicate SameKey(a: Key, b: Key) {
    a.cWidth == b.cWidth && a.cHeight == b.cHeight && a.bSize == b.bSize && a.isWidthSpec == b.isWidthSpec
    && a.keySpanWidth == b.keySpanWidth && a.singleChar == b.singleChar
  }

  predicate SameRow(a: RowBox, b: RowBox) {
    && a.minWidth == b.minWidth && a.minHeight == b.minHeight && |a.keys| == |b.keys|
    && forall j | 0 <= j < |a.keys| :: SameKey(a.keys[j], b.keys[j])
  }

  predicate SameRows(a: seq<RowBox>, b: seq<RowBox>) {
    |a| == |b| && forall i | 0 <= i < |a| :: SameRow(a[i], b[i])
  }

  lemma {:induction false} SizingKeepsSame(p: Pane)
    requires Sizable(p)
    ensures SameRows(SizedPane(p).rows, p.rows)
  {
    var d := Defaulted(p);
    SizableIs(d);
    var l := LayoutOf(d);
    forall i | 0 <= i < |p.rows| ensures SameRow(SizedRows(p.rows, l, |p.rows|)[i], p.rows[i]) {
      SizedRowAt(p.rows, l, |p.rows|, i);
      SizedRowIsSame(p.rows[i], l.width, PlanAt(l, i));
    }
  }

  lemma {:induction false} SizedRowIsSame(r: RowBox, width: int, p: Plan)
    ensures SameRow(SizedRow(r, width, p), r)
  {
    if |p.parts| == |p.shares| == |r.keys| {
      var keys := SizedKeys(r.keys, p.parts, p.shares, width, p.band, p.height, |r.keys|);
      forall j | 0 <= j < |r.keys| ensures SameKey(keys[j], r.keys[j]) {
        SizedKeyAt(r.keys, p.parts, p.shares, width, p.band, p.height, |r.keys|, j);
      }
    }
  }

  lemma {:induction false} SameRowsSameLayout(a: seq<RowBox>, b: seq<RowBox>)
    requires SameRows(a, b)
    ensures RowsOf(a) == RowsOf(b) && (RowsSizable(a) <==> RowsSizable(b))
  {
    forall i | 0 <= i < |a| ensures RowsOf(a)[i] == RowsOf(b)[i] {
      assert SameRow(a[i], b[i]);
      RowIs(a, i);
      RowIs(b, i);
      assert PartsOf(a[i].keys) == PartsOf(b[i].keys);
    }
    assert forall i | 0 <= i < |a| :: SameRow(a[i], b[i]);
  }

  lemma {:induction false} SizedRowAlike(a: RowBox, b: RowBox, width: int, p: Plan)
    requires SameRow(a, b) && |p.parts| == |p.shares| == |a.keys|
    ensures SizedRow(a, width, p) == SizedRow(b, width, p)
  {
    var x := SizedKeys(a.keys, p.parts, p.shares, width, p.band, p.height, |a.keys|);
    var y := SizedKeys(b.keys, p.parts, p.shares, width, p.band, p.height, |b.keys|);
    forall j | 0 <= j < |a.keys| ensures x[j] == y[j] {
      SizedKeyAt(a.keys, p.parts, p.shares, width, p.band, p.height, |a.keys|, j);
      SizedKeyAt(b.keys, p.parts, p.shares, width, p.band, p.height, |b.keys|, j);
      assert SameKey(a.keys[j], b.keys[j]);
    }
  }

  lemma {:induction false} SizedRowsAlike(a: seq<RowBox>, b: seq<RowBox>, l: Layout)
    requires SameRows(a, b) && l.Sizable() && l.rows == RowsOf(a)
    ensures SizedRows(a, l, |a|) == SizedRows(b, l, |b|)
  {
    forall i | 0 <= i < |a| ensures SizedRows(a, l, |a|)[i] == SizedRows(b, l, |b|)[i] {
      SizedRowAt(a, l, |a|, i);
      SizedRowAt(b, l, |b|, i);
      RowIs(a, i);
      assert SameRow(a[i], b[i]);
      SizedRowAlike(a[i], b[i], l.width, PlanAt(l, i));
    }
  }

  // Two panes that agree in everything sizing depends on and leaves alone are sized alike.
  lemma {:induction false} SizedAlike(a: Pane, b: Pane)
    requires Sizable(a) && SameRows(a.rows, b.rows)
    requires Defaulted(a).(rows := []) == Defaulted(b).(rows := [])
    ensures Sizable(b) && SizedPane(a) == SizedPane(b)
  {
    SameRowsSameLayout(a.rows, b.rows);
    SizableIs(Defaulted(a));
    SizedRowsAlike(a.rows, b.rows, LayoutOf(Defaulted(a)));
  }

  // Sizing again changes nothing.
  lemma {:induction false} SizingIsIdempotent(p: Pane)
    requires Sizable(p)
    ensures Sizable(SizedPane(p)) && SizedPane(SizedPane(p)) == SizedPane(p)
  {
    var s := SizedPane(p);
    SizingKeepsSame(p);
    SameRowsSameLayout(s.rows, p.rows);
    SizedAlike(s, p);
  }

  // ---------- the invariant of all runs ----------

  // Rows as kb_new leaves them: not empty, of natural widths that add up to a positive minimum.
  predicate RowProper(r: RowBox) {
    && r.keys != [] && NonNegative(PartsOf(r.keys))
    && r.minWidth == Sum(PartsOf(r.keys), |r.keys|) > 0
    && r.minHeight >= 0
  }

  predicate RowsProper(rows: seq<RowBox>) {
    forall i | 0 <= i < |rows| :: RowProper(rows[i])
  }

  // The height that a layout's rows need.
  function HeightNeeded(rows: seq<RowBox>): int {
    Sum(NeedsOf(RowsOf(rows)), |rows|)
  }

  // The current layout's stored minimum height covers what the rows of any layout need, although
  // a switch copies it from the layout before.
  predicate Invariant(k: Panes) {
    && k.Valid()
    && k.Current().minHeight > 0 && k.Current().minWidth >= 0
    && k.Current().actWidth >= 0 && k.Current().actHeight >= 0
    && PanesProper(k.layouts, k.Current().minHeight)
  }

  predicate PanesProper(layouts: seq<Pane>, stored: int) {
    forall n | 0 <= n < |layouts| :: RowsProper(layouts[n].rows) && HeightNeeded(layouts[n].rows) <= stored
  }

  lemma {:induction false} ProperRowsSizable(rows: seq<RowBox>)
    requires RowsProper(rows)
    ensures RowsSizable(rows)
  {
  }

  // A pane with proper rows that fit its stored minimum is a proper layout.
  lemma {:induction false} ProperIs(p: Pane)
    requires RowsProper(p.rows) && HeightNeeded(p.rows) <= p.minHeight
    requires p.minHeight > 0 && p.actWidth >= 0 && p.actHeight >= 0
    ensures LayoutOf(p).Proper()
  {
    var l := LayoutOf(p);
    forall i | 0 <= i < |p.rows|
      ensures l.Needs()[i] >= 0
      ensures l.rows[i].parts != [] && NonNegative(l.rows[i].parts)
              && l.rows[i].minWidth > 0 && Sum(l.rows[i].parts, |l.rows[i].parts|) == l.rows[i].minWidth
    {
      RowIs(p.rows, i);
    }
  }

  lemma {:induction false} RowProperAlike(a: RowBox, b: RowBox)
    requires SameRow(a, b) && RowProper(a)
    ensures RowProper(b)
  {
    assert PartsOf(a.keys) == PartsOf(b.keys);
  }

  lemma {:induction false} ProperAlike(a: seq<RowBox>, b: seq<RowBox>)
    requires SameRows(a, b) && RowsProper(a)
    ensures RowsProper(b) && HeightNeeded(a) == HeightNeeded(b)
  {
    forall i | 0 <= i < |b| ensures RowProper(b[i]) {
      RowProperAlike(a[i], b[i]);
    }
    SameRowsSameLayout(a, b);
  }

  predicate Sane(k: Panes, op: Op) {
    && (op.Resize? ==> op.width >= 0 && op.height >= 0)
    && (op.Switch? ==> op.number < |k.layouts|)
  }

  // The current layout is sized: every field of its rows and keys is what kb_size would store.
  predicate Settled(k: Panes) {
    k.Valid() && Sizable(k.Current()) && SizedPane(k.Current()) == k.Current()
  }

  // The layout that an operation works on.
  function Target(k: Panes, op: Op): nat {
    if op.Switch? then op.number else k.vbox
  }

  // An operation sizes its layout and leaves the others alone.
  lemma {:induction false} DoSizesTarget(k: Panes, op: Op)
    requires CanDo(k, op)
    ensures var (p, k', t) := (Prepared(k, op).Current(), Do(k, op), Target(k, op));
            && k'.vbox == t < |k.layouts| && k'.Current() == SizedPane(p) && p.rows == k.layouts[t].rows
            && p.minHeight == k.Current().minHeight && p.minWidth == k.Current().minWidth
            && (op.Resize? || (p.actWidth == k.Current().actWidth && p.actHeight == k.Current().actHeight))
            && (op.Resize? ==> p.actWidth == op.width && p.actHeight == op.height)
            && forall n | 0 <= n < |k.layouts| && n != t :: k'.layouts[n] == k.layouts[n]
  {
  }

  // The layouts have the same rows in everything that is not computed.
  predicate Alike(a: seq<Pane>, b: seq<Pane>) {
    |a| == |b| && forall n | 0 <= n < |a| :: SameRows(a[n].rows, b[n].rows)
  }

  // A new version of one layout that has the same rows.
  lemma {:induction false} AlikeAfter(layouts: seq<Pane>, after: seq<Pane>, t: nat, stored: int)
    requires t < |layouts| == |after| && PanesProper(layouts, stored) && SameRows(after[t].rows, layouts[t].rows)
    requires forall n | 0 <= n < |layouts| && n != t :: after[n] == layouts[n]
    ensures Alike(after, layouts) && PanesProper(after, stored)
  {
    forall n | 0 <= n < |layouts|
      ensures SameRows(after[n].rows, layouts[n].rows)
      ensures RowsProper(after[n].rows) && HeightNeeded(after[n].rows) <= stored
    {
      if n == t {
        SameRowsBack(after[n].rows, layouts[n].rows);
        ProperAlike(layouts[n].rows, after[n].rows);
      } else {
        RowsSameAsSelf(layouts[n].rows);
      }
    }
  }

  lemma {:induction false} SizingKeepsFrame(p: Pane)
    requires Sizable(p)
    ensures var s := SizedPane(p);
            && s.minHeight == p.minHeight && s.minWidth == p.minWidth
            && s.actWidth == (if p.actWidth == 0 then p.minWidth else p.actWidth)
            && s.actHeight == (if p.actHeight == 0 then p.minHeight else p.actHeight)
  {
  }

  // One operation can be carried out, keeps the invariant, and leaves the current layout sized.
  lemma {:induction false} DoKeepsInvariant(k: Panes, op: Op)
    requires Invariant(k) && Sane(k, op)
    ensures CanDo(k, op) && Invariant(Do(k, op)) && Alike(Do(k, op).layouts, k.layouts)
    ensures Settled(Do(k, op))
    ensures Do(k, op).Current().minHeight == k.Current().minHeight
  {
    ProperRowsSizable(k.layouts[Target(k, op)].rows);
    var p, k' := Prepared(k, op).Current(), Do(k, op);
    DoSizesTarget(k, op);
    SizingIsIdempotent(p);
    SizingKeepsSame(p);
    SizingKeepsFrame(p);
    AlikeAfter(k.layouts, k'.layouts, Target(k, op), k.Current().minHeight);
  }

  lemma {:induction false} SameRowsBack(a: seq<RowBox>, b: seq<RowBox>)
    requires SameRows(a, b)
    ensures SameRows(b, a)
  {
    forall i | 0 <= i < |a| ensures SameRow(b[i], a[i]) {
      assert SameRow(a[i], b[i]);
      forall j | 0 <= j < |a[i].keys| ensures SameKey(b[i].keys[j], a[i].keys[j]) {
        assert SameKey(a[i].keys[j], b[i].keys[j]);
      }
    }
  }

  // ---------- whole runs ----------

  predicate SaneRun(k: Panes, ops: seq<Op>) {
    forall i | 0 <= i < |ops| :: Sane(k, ops[i])
  }

  lemma {:induction false} FirstOfRun(k: Panes, ops: seq<Op>)
    requires Invariant(k) && SaneRun(k, ops) && ops != []
    ensures Sane(k, ops[0]) && CanDo(k, ops[0])
    ensures Invariant(Do(k, ops[0])) && SaneRun(Do(k, ops[0]), ops[1..])
  {
    assert Sane(k, ops[0]);
    DoKeepsInvariant(k, ops[0]);
    RestIsSane(k, Do(k, ops[0]), ops);
  }

  lemma {:induction false} RestIsSane(k: Panes, next: Panes, ops: seq<Op>)
    requires ops != [] && SaneRun(k, ops) && |next.layouts| == |k.layouts|
    ensures SaneRun(next, ops[1..])
  {
    forall i | 0 <= i < |ops[1..]| ensures Sane(next, ops[1..][i]) {
      assert ops[1..][i] == ops[i + 1] && Sane(k, ops[i + 1]);
    }
  }

  function Run(k: Panes, ops: seq<Op>): (k': Panes)
    requires Invariant(k) && SaneRun(k, ops)
    ensures Invariant(k')
    decreases |ops|
  {
    if ops == [] then k
    else
      FirstOfRun(k, ops);
      Run(Do(k, ops[0]), ops[1..])
  }

  // After any run the stored minimum height is the one from the start, the layouts have the same
  // rows and keys in everything that is not computed, and the current layout is sized.
  lemma {:induction false} RunKeeps(k: Panes, ops: seq<Op>)
    requires Invariant(k) && SaneRun(k, ops)
    ensures var end := Run(k, ops);
            && Alike(end.layouts, k.layouts)
            && end.Current().minHeight == k.Current().minHeight
            && (Settled(k) || ops != [] ==> Settled(end))
    decreases |ops|
  {
    if ops == [] {
      AlikeSelf(k.layouts);
    } else {
      FirstOfRun(k, ops);
      DoKeepsInvariant(k, ops[0]);
      var next := Do(k, ops[0]);
      RunKeeps(next, ops[1..]);
      AlikeThrough(Run(next, ops[1..]).layouts, next.layouts, k.layouts);
    }
  }

  lemma {:induction false} AlikeSelf(a: seq<Pane>)
    ensures Alike(a, a)
  {
    forall n | 0 <= n < |a| ensures SameRows(a[n].rows, a[n].rows) {
      RowsSameAsSelf(a[n].rows);
    }
  }

  lemma {:induction false} AlikeThrough(a: seq<Pane>, b: seq<Pane>, c: seq<Pane>)
    requires Alike(a, b) && Alike(b, c)
    ensures Alike(a, c)
  {
    forall n | 0 <= n < |a| ensures SameRows(a[n].rows, c[n].rows) {
      SameRowsThrough(a[n].rows, b[n].rows, c[n].rows);
    }
  }

  lemma {:induction false} RowsSameAsSelf(a: seq<RowBox>)
    ensures SameRows(a, a)
  {
  }

  lemma {:induction false} SameRowsThrough(a: seq<RowBox>, b: seq<RowBox>, c: seq<RowBox>)
    requires SameRows(a, b) && SameRows(b, c)
    ensures SameRows(a, c)
  {
    forall i | 0 <= i < |a| ensures SameRow(a[i], c[i]) {
      assert SameRow(a[i], b[i]) && SameRow(b[i], c[i]);
      forall j | 0 <= j < |a[i].keys| ensures SameKey(a[i].keys[j], c[i].keys[j]) {
        assert SameKey(a[i].keys[j], b[i].keys[j]) && SameKey(b[i].keys[j], c[i].keys[j]);
      }
    }
  }

  // ---------- rectangles, as stored ----------

  predicate HasKey(p: Pane, i: int, j: int) {
    0 <= i < |p.rows| && 0 <= j < |p.rows[i].keys|
  }

  // The rectangle of a key, from the stored fields: its position is summed up over the parents, as
  // button_get_abs_x and button_get_abs_y do.
  function KeyRect(p: Pane, i: nat, j: nat): Rect
    requires HasKey(p, i, j)
  {
    var k := p.rows[i].keys[j];
    Rect(k.x + p.rows[i].x + p.x, k.y + p.rows[i].y + p.y, k.actWidth, k.actHeight)
  }

  // In a sized layout the stored rectangles are those of the geometry, and rows have their bands.
  lemma {:induction false} SettledRects(p: Pane, i: nat, j: nat)
    requires Sizable(p) && SizedPane(p) == p && HasKey(p, i, j)
    ensures LayoutOf(p).Sizable() && LayoutOf(p).Has(i, j)
    ensures KeyRect(p, i, j) == LayoutOf(p).KeyRect(i, j)
    ensures p.rows[i].x == 0 && p.rows[i].y == Sum(LayoutOf(p).Bands(), i) && p.rows[i].actHeight == LayoutOf(p).Bands()[i]
  {
    SettledRow(p, i);
    RowIs(p.rows, i);
    PlannedRect(LayoutOf(p), i, j);
    SettledKey(p.rows[i], p.actWidth, PlanAt(LayoutOf(p), i), j);
  }

  lemma {:induction false} PlannedRect(l: Layout, i: nat, j: nat)
    requires l.Sizable() && l.Has(i, j)
    ensures var plan := PlanAt(l, i);
            && |plan.parts| == |plan.shares| == |l.rows[i].parts|
            && l.KeyRect(i, j) == Rect(l.x + Sum(plan.shares, j), l.y + plan.top, WidthAt(plan.shares, l.width, j), plan.height)
            && plan.top == Sum(l.Bands(), i) && plan.band == l.Bands()[i]
  {
  }

  // The keys of a sized row, and where the row is.
  lemma {:induction false} SettledKey(row: RowBox, width: int, plan: Plan, j: nat)
    requires row == SizedRow(row, width, plan) && |plan.parts| == |plan.shares| == |row.keys| && j < |row.keys|
    ensures row.x == 0 && row.y == plan.top && row.actHeight == plan.band
    ensures row.keys[j].x == Sum(plan.shares, j) && row.keys[j].y == 0
    ensures row.keys[j].actWidth == WidthAt(plan.shares, width, j) && row.keys[j].actHeight == plan.height
  {
    SizedKeyAt(row.keys, plan.parts, plan.shares, width, plan.band, plan.height, |row.keys|, j);
  }

  lemma {:induction false} SettledRow(p: Pane, i: nat)
    requires Sizable(p) && SizedPane(p) == p && i < |p.rows|
    ensures LayoutOf(p).Sizable() && |RowsOf(p.rows)| == |p.rows|
    ensures p.rows[i] == SizedRow(p.rows[i], p.actWidth, PlanAt(LayoutOf(p), i))
  {
    SettledDefaults(p);
    SizableIs(p);
    SizedRowAt(p.rows, LayoutOf(p), |p.rows|, i);
  }

  // After every run from a sized start, or of at least one operation: all keys of the current
  // layout lie in its window, no two of them overlap, and stacked rows stay within its height.
  lemma {:induction false} GeometryOverRuns(k: Panes, ops: seq<Op>, i: nat, j: nat, i': nat, j': nat)
    requires Invariant(k) && SaneRun(k, ops) && (Settled(k) || ops != [])
    requires HasKey(Run(k, ops).Current(), i, j) && HasKey(Run(k, ops).Current(), i', j')
    ensures var p := Run(k, ops).Current();
            var r := KeyRect(p, i, j);
            && p.x <= r.x && r.x + r.w <= p.x + p.actWidth && p.y <= r.y && r.y + r.h <= p.y + p.actHeight
            && p.rows[i].y + p.rows[i].actHeight <= p.actHeight
            && (i != i' || j != j' ==> Apart(r, KeyRect(p, i', j')))
  {
    RunKeeps(k, ops);
    var p := Run(k, ops).Current();
    ProperIs(p);
    SettledRects(p, i, j);
    SettledRects(p, i', j');
    KeysInWindow(LayoutOf(p), i, j);
    RowsFit(LayoutOf(p).Needs(), p.minHeight, p.actHeight, i);
    if i != i' || j != j' {
      KeysDisjoint(LayoutOf(p), i, j, i', j');
    }
  }

  // ---------- switching away and back ----------

  predicate OnlySwitches(ops: seq<Op>) {
    forall i | 0 <= i < |ops| :: ops[i].Switch?
  }

  // The current layouts have the same size and stored minimum, and no layout has moved.
  predicate SameFrame(a: Panes, b: Panes) {
    && a.Valid() && b.Valid() && |a.layouts| == |b.layouts|
    && a.Current().actWidth == b.Current().actWidth && a.Current().actHeight == b.Current().actHeight
    && a.Current().minWidth == b.Current().minWidth && a.Current().minHeight == b.Current().minHeight
    && forall n | 0 <= n < |a.layouts| :: a.layouts[n].x == b.layouts[n].x && a.layouts[n].y == b.layouts[n].y
  }

  lemma {:induction false} FrameThrough(a: Panes, b: Panes, c: Panes)
    requires SameFrame(a, b) && SameFrame(b, c)
    ensures SameFrame(a, c)
  {
  }

  // Switches hand the window's size and the stored minimum on.
  lemma {:induction false} SwitchesKeepFrame(k: Panes, ops: seq<Op>)
    requires Invariant(k) && Settled(k) && SaneRun(k, ops) && OnlySwitches(ops)
    ensures SameFrame(Run(k, ops), k)
    decreases |ops|
  {
    if ops != [] {
      var (first, rest) := (ops[0], ops[1..]);
      FirstOfRun(k, ops);
      DoKeepsInvariant(k, first);
      var next := Do(k, first);
      RestSwitches(ops);
      SwitchKeepsFrame(k, first);
      SwitchesKeepFrame(next, rest);
      FrameThrough(Run(next, rest), next, k);
    }
  }

  lemma {:induction false} RestSwitches(ops: seq<Op>)
    requires ops != [] && OnlySwitches(ops)
    ensures OnlySwitches(ops[1..]) && ops[0].Switch?
  {
  }

  lemma {:induction false} SwitchKeepsFrame(k: Panes, op: Op)
    requires Invariant(k) && Settled(k) && Sane(k, op) && op.Switch? && CanDo(k, op)
    ensures SameFrame(Do(k, op), k)
  {
    SettledDefaults(k.Current());
    DoSizesTarget(k, op);
    SizingKeepsFrame(Prepared(k, op).Current());
  }

  lemma {:induction false} SettledDefaults(p: Pane)
    requires Sizable(p) && SizedPane(p) == p
    ensures Defaulted(p) == p
  {
    assert Defaulted(p).rows == p.rows;
  }

  // Switching through any layouts and back to the one at the start brings back that layout exactly:
  // every rectangle, and every other field.
  lemma {:induction false} SwitchingBackRestores(k: Panes, ops: seq<Op>)
    requires Invariant(k) && Settled(k) && SaneRun(k, ops) && OnlySwitches(ops)
    requires Run(k, ops).vbox == k.vbox
    ensures Run(k, ops).Current() == k.Current()
  {
    RunKeeps(k, ops);
    SwitchesKeepFrame(k, ops);
    var p, q := Run(k, ops).Current(), k.Current();
    SettledDefaults(p);
    SettledDefaults(q);
    SizedAlike(p, q);
  }

  // ---------- hit-testing ----------

  predicate InWindow(p: Pane, x: int, y: int) {
    p.x <= x <= p.x + p.actWidth && p.y <= y <= p.y + p.actHeight
  }

  predicate InRow(p: Pane, i: int, y: int) {
    0 <= i < |p.rows| && p.y + p.rows[i].y < y < p.y + p.rows[i].y + p.rows[i].actHeight
  }

  // In a sized layout the window and row tests never turn away a point that is inside a key.
  lemma {:induction false} TestsLetThrough(p: Pane, i: nat, j: nat, x: int, y: int)
    requires Sizable(p) && SizedPane(p) == p && LayoutOf(p).Proper() && HasKey(p, i, j)
    requires KeyRect(p, i, j).Contains(x, y)
    ensures InWindow(p, x, y) && InRow(p, i, y)
  {
    SettledRects(p, i, j);
    KeysInWindow(LayoutOf(p), i, j);
  }

  // What the search returns is inside the point's key, and nothing only if the window and row tests
  // let no key with the point inside through.
  ghost predicate IsFound(p: Pane, x: int, y: int, hit: Option<(nat, nat)>) {
    && (hit.Some? ==> HasKey(p, hit.value.0, hit.value.1) && KeyRect(p, hit.value.0, hit.value.1).Contains(x, y))
    && (hit.None? ==>
          forall i, j | HasKey(p, i, j) && InWindow(p, x, y) && InRow(p, i, y) :: !KeyRect(p, i, j).Contains(x, y))
  }

  ghost predicate FindsExactly(p: Pane, x: int, y: int, hit: Option<(nat, nat)>) {
    forall i: nat, j: nat | HasKey(p, i, j) :: hit == Some((i, j)) <==> KeyRect(p, i, j).Contains(x, y)
  }

  // On the edge of a rectangle, one that is not degenerate.
  predicate OnEdge(r: Rect, x: int, y: int) {
    r.w >= 0 && r.h >= 0 && r.x <= x <= r.x + r.w && r.y <= y <= r.y + r.h && !r.Contains(x, y)
  }

  ghost predicate MissesEdges(p: Pane, x: int, y: int, hit: Option<(nat, nat)>) {
    forall i: nat, j: nat | HasKey(p, i, j) && OnEdge(KeyRect(p, i, j), x, y) :: hit.None?
  }

  lemma {:induction false} FoundIsExact(p: Pane, x: int, y: int, hit: Option<(nat, nat)>)
    requires IsFound(p, x, y, hit) && Sizable(p) && SizedPane(p) == p && LayoutOf(p).Proper()
    ensures FindsExactly(p, x, y, hit) && MissesEdges(p, x, y, hit)
  {
    forall i: nat, j: nat | HasKey(p, i, j) && KeyRect(p, i, j).Contains(x, y) ensures hit == Some((i, j)) {
      TestsLetThrough(p, i, j, x, y);
      OnlyHere(p, x, y, hit, i, j);
    }
    forall i: nat, j: nat | HasKey(p, i, j) && OnEdge(KeyRect(p, i, j), x, y) ensures hit.None? {
      OnlyHere(p, x, y, hit, i, j);
    }
  }

  // A key that touches the point is the one that was found, if one was.
  lemma {:induction false} OnlyHere(p: Pane, x: int, y: int, hit: Option<(nat, nat)>, i: nat, j: nat)
    requires IsFound(p, x, y, hit) && Sizable(p) && SizedPane(p) == p && LayoutOf(p).Proper() && HasKey(p, i, j)
    requires KeyRect(p, i, j).Contains(x, y) || OnEdge(KeyRect(p, i, j), x, y)
    ensures hit.Some? ==> hit == Some((i, j))
  {
    if hit.Some? {
      SettledRects(p, i, j);
      SettledRects(p, hit.value.0, hit.value.1);
      AtMostOneKey(LayoutOf(p), x, y, hit.value.0, hit.value.1, i, j);
    }
  }

  // After every run of resizes, repaints and switches the search is the exact inverse of the layout:
  // it finds a key exactly for the points strictly inside it, and nothing on an edge.
  lemma {:induction false} HitTestOverRuns(k: Panes, ops: seq<Op>, x: int, y: int, hit: Option<(nat, nat)>)
    requires Invariant(k) && SaneRun(k, ops) && (Settled(k) || ops != [])
    requires IsFound(Run(k, ops).Current(), x, y, hit)
    ensures FindsExactly(Run(k, ops).Current(), x, y, hit) && MissesEdges(Run(k, ops).Current(), x, y, hit)
  {
    RunKeeps(k, ops);
    ProperIs(Run(k, ops).Current());
    FoundIsExact(Run(k, ops).Current(), x, y, hit);
  }

  // kb_find_button: the first key, row by row, that the point is strictly inside, if the point is in
  // the window and in the key's row. Hit-testing is the exact inverse of the layout: after sizing,
  // a key is found exactly for the points strictly inside its rectangle, and nothing on an edge.
  method KbFindButton(p: Pane, x: int, y: int) returns (hit: Option<(nat, nat)>)
    ensures IsFound(p, x, y, hit)
    ensures Sizable(p) && SizedPane(p) == p && LayoutOf(p).Proper() ==>
              FindsExactly(p, x, y, hit) && MissesEdges(p, x, y, hit)
  {
    hit := FindInRows(p, x, y);
    if Sizable(p) && SizedPane(p) == p && LayoutOf(p).Proper() {
      FoundIsExact(p, x, y, hit);
    }
  }

  // The loop over the rows.
  method FindInRows(p: Pane, x: int, y: int) returns (hit: Option<(nat, nat)>)
    ensures IsFound(p, x, y, hit)
  {
    hit := None;
    if x >= p.x && y >= p.y && x <= p.x + p.actWidth && y <= p.y + p.actHeight {
      var i := 0;
      while i < |p.rows|
        invariant 0 <= i <= |p.rows|
        invariant forall i', j | HasKey(p, i', j) && i' < i && InRow(p, i', y) :: !KeyRect(p, i', j).Contains(x, y)
      {
        var row := p.rows[i];
        if y > p.y + row.y && y < p.y + row.y + row.actHeight {
          var found := FindInRow(p, i, x, y);
          if found.Some? { return Some((i, found.value)); }
        }
        i := i + 1;
      }
    }
  }

  // The loop over the keys of a row.
  method FindInRow(p: Pane, i: nat, x: int, y: int) returns (found: Option<nat>)
    requires i < |p.rows|
    ensures found.Some? ==> HasKey(p, i, found.value) && KeyRect(p, i, found.value).Contains(x, y)
    ensures found.None? ==> forall j | HasKey(p, i, j) :: !KeyRect(p, i, j).Contains(x, y)
  {
    var row := p.rows[i];
    var j := 0;
    while j < |row.keys|
      invariant 0 <= j <= |row.keys|
      invariant forall j' | 0 <= j' < j :: !KeyRect(p, i, j').Contains(x, y)
    {
      var but := row.keys[j];
      if && x > but.x + p.x + row.x && x < but.x + p.x + row.x + but.actWidth
         && y > but.y + p.y + row.y && y < but.y + p.y + row.y + but.actHeight {
        return Some(j);
      }
      j := j + 1;
    }
    found := None;
  }
}
