// kb_new from end to end: the configuration is read, its keys become buttons, the two passes give
// them their minimum sizes, and the keyboard is ready for the runs of LayoutRuns.
module KeyboardFromText {
  import opened Wrappers
  import opened Layouts
  import opened LayoutRuns
  import opened MinimumSizes
  import Config = ConfigParser

  predicate OneChar(text: Option<string>) {
    text.None? || |text.value| == 1
  }

  // The fields of a button that sizing reads. Places and sizes are set later.
  function ButtonOf(k: Config.KeyDef): Key {
    Key(0, 0, k.cWidth, k.cHeight, 0, 0, 0, 0, 0, k.isWidthSpec, k.keySpanWidth,
        OneChar(k.defaultTxt) && OneChar(k.shiftTxt) && OneChar(k.modTxt) && k.image.None?)
  }

  function ButtonsOf(row: seq<Config.KeyDef>): (keys: seq<Key>)
    ensures |keys| == |row| && forall j | 0 <= j < |row| :: keys[j] == ButtonOf(row[j])
  {
    if row == [] then [] else ButtonsOf(row[..|row| - 1]) + [ButtonOf(row[|row| - 1])]
  }

  function BoxesOf(rows: Config.Rows): (boxes: seq<RowBox>)
    ensures |boxes| == |rows| && forall i | 0 <= i < |rows| :: boxes[i] == RowBox(0, 0, 0, 0, 0, 0, ButtonsOf(rows[i]))
  {
    if rows == [] then []
    else BoxesOf(rows[..|rows| - 1]) + [RowBox(0, 0, 0, 0, 0, 0, ButtonsOf(rows[|rows| - 1]))]
  }

  // Where the keyboard is put.
  datatype Place = Place(x: int, y: int, width: int, height: int)

  function PanesOf(layouts: seq<Config.Rows>, at: Place): (panes: seq<Pane>)
    ensures |panes| == |layouts|
    ensures forall n | 0 <= n < |layouts| :: panes[n] == Pane(at.x, at.y, 0, 0, at.width, at.height, BoxesOf(layouts[n]))
  {
    if layouts == [] then []
    else PanesOf(layouts[..|layouts| - 1], at) + [Pane(at.x, at.y, 0, 0, at.width, at.height, BoxesOf(layouts[|layouts| - 1]))]
  }

  // No empty row, and no negative size.
  predicate SaneRow(row: seq<Config.KeyDef>) {
    row != [] && forall k | k in row :: k.cWidth >= 0 && k.keySpanWidth >= 0
  }

  predicate SaneRows(rows: Config.Rows) {
    forall row | row in rows :: SaneRow(row)
  }

  predicate SaneLayouts(layouts: seq<Config.Rows>) {
    forall rows | rows in layouts :: SaneRows(rows)
  }

  lemma {:induction false} SaneIsConfigured(layouts: seq<Config.Rows>, at: Place)
    requires SaneLayouts(layouts) && at.width >= 0 && at.height >= 0
    ensures Configured(PanesOf(layouts, at))
  {
    var panes := PanesOf(layouts, at);
    forall n | 0 <= n < |panes| ensures RowsConfigured(panes[n].rows) {
      var rows := layouts[n];
      assert rows in layouts;
      forall i | 0 <= i < |rows| ensures RowConfigured(panes[n].rows[i]) {
        assert rows[i] in rows;
      }
    }
  }

  // The whole of kb_new. From a configuration without empty rows or negative sizes comes a keyboard
  // for which everything proved of runs holds, if and only if every row has a key that gets some
  // width: a width of its own, or that of the widest one-character key of the first layout.
  method KbNew(env: Config.Env, lines: seq<string>, at: Place) returns (fault: Option<Config.Fault>, panes: Panes)
    ensures fault == match Config.Parse(env, lines) case Failed(f) => Some(f) case Parsed(_) => None
    ensures fault.None? ==> IsBuilt(Config.Parse(env, lines).p.layouts, at, panes)
  {
    var reader := new Config.Reader(env);
    fault := reader.ReadFile(lines);
    panes := Panes([], 0);
    if fault.Some? { return; }
    var unsized := PanesOf(reader.layouts, at);
    var sized, maxWidth, maxHeight := KbNewSizes(unsized);
    panes := Panes(sized, 0);
    Built(reader.layouts, at, sized, maxWidth, maxHeight);
  }

  // What kb_new makes of the layouts it has read.
  ghost predicate IsBuilt(layouts: seq<Config.Rows>, at: Place, panes: Panes) {
    && layouts != [] && panes.vbox == 0
    && AreSized(panes.layouts, PanesOf(layouts, at))
    && (SaneLayouts(layouts) && at.width >= 0 && at.height >= 0 ==>
          (Invariant(panes) <==> PanesWide(PanesOf(layouts, at))))
  }

  // Every layout has its natural rows, at the sizes of the first layout's one-character keys.
  ghost predicate AreSized(sized: seq<Pane>, unsized: seq<Pane>)
    requires unsized != []
  {
    && |sized| == |unsized|
    && exists width, height :: WidestIs(AllKeys(unsized[0].rows), width)
         && TallestIs(AllKeys(unsized[0].rows), height) && SizedBy(sized, unsized, width, height + 2)
  }

  lemma {:induction false} StartsRuns(layouts: seq<Config.Rows>, at: Place, sized: seq<Pane>, maxWidth: int, maxHeight: int)
    requires layouts != [] && |sized| == |layouts|
    requires SaneLayouts(layouts) && at.width >= 0 && at.height >= 0
    requires var unsized := PanesOf(layouts, at);
             && WidestIs(AllKeys(unsized[0].rows), maxWidth) && maxHeight >= 0
             && SizedBy(sized, unsized, maxWidth, maxHeight + 2)
    ensures Invariant(Panes(sized, 0)) <==> PanesWide(PanesOf(layouts, at))
  {
    SaneIsConfigured(layouts, at);
    KbNewEstablishes(PanesOf(layouts, at), sized, maxWidth, maxHeight);
  }

  lemma {:induction false} Built(layouts: seq<Config.Rows>, at: Place, sized: seq<Pane>, maxWidth: int, maxHeight: int)
    requires layouts != [] && |sized| == |layouts|
    requires var unsized := PanesOf(layouts, at);
             && WidestIs(AllKeys(unsized[0].rows), maxWidth) && TallestIs(AllKeys(unsized[0].rows), maxHeight)
             && SizedBy(sized, unsized, maxWidth, maxHeight + 2)
    ensures IsBuilt(layouts, at, Panes(sized, 0))
  {
    assert AreSized(sized, PanesOf(layouts, at));
    if SaneLayouts(layouts) && at.width >= 0 && at.height >= 0 {
      StartsRuns(layouts, at, sized, maxWidth, maxHeight);
    }
  }
}
