// Whole configurations: printed canonically and read back, with lines added that say nothing, and
// with the tag of a single layout left out.
module ConfigRoundTrip {
  import opened Wrappers
  import opened ConfigText
  import opened ConfigParser
  import opened ConfigKeys

  type Tree = seq<seq<seq<Settings>>>

  // ---------- the canonical text ----------

  function TagLine(name: string): string { "<" + name + ">\n" }

  function SettingLine(s: (string, string)): string { s.0 + " " + s.1 + "\n" }

  function SettingLines(settings: Settings): seq<string> {
    if settings == [] then [] else [SettingLine(settings[0])] + SettingLines(settings[1..])
  }

  function KeyLines(settings: Settings): seq<string> {
    [TagLine("key")] + (SettingLines(settings) + [TagLine("/key")])
  }

  function AllKeyLines(row: seq<Settings>): seq<string> {
    if row == [] then [] else KeyLines(row[0]) + AllKeyLines(row[1..])
  }

  function RowLines(row: seq<Settings>): seq<string> {
    [TagLine("row")] + (AllKeyLines(row) + [TagLine("/row")])
  }

  function AllRowLines(rows: seq<seq<Settings>>): seq<string> {
    if rows == [] then [] else RowLines(rows[0]) + AllRowLines(rows[1..])
  }

  function LayoutLines(rows: seq<seq<Settings>>): seq<string> {
    [TagLine("layout")] + (AllRowLines(rows) + [TagLine("/layout")])
  }

  function Print(tree: Tree): seq<string> {
    if tree == [] then [] else LayoutLines(tree[0]) + Print(tree[1..])
  }

  predicate RowReadable(row: seq<Settings>) { forall settings | settings in row :: AllSettings(settings) }

  predicate RowsReadable(rows: seq<seq<Settings>>) { forall row | row in rows :: RowReadable(row) }

  predicate Readable(tree: Tree) { forall rows | rows in tree :: RowsReadable(rows) }

  // ---------- what it means ----------

  // The keys of a row, unless one of them has a setting that ends the program; and so on.
  function RowMeaning(env: Env, row: seq<Settings>): (keys: Option<seq<KeyDef>>)
    ensures keys.Some? ==> |keys.value| == |row|
  {
    if row == [] then Some([])
    else
      var (first, rest) := (Meaning(env, row[0]), RowMeaning(env, row[1..]));
      if first.None? || rest.None? then None else Some([first.value] + rest.value)
  }

  function RowsMeaning(env: Env, rows: seq<seq<Settings>>): (r: Option<Rows>)
    ensures r.Some? ==> |r.value| == |rows|
  {
    if rows == [] then Some([])
    else
      var (first, rest) := (RowMeaning(env, rows[0]), RowsMeaning(env, rows[1..]));
      if first.None? || rest.None? then None else Some([first.value] + rest.value)
  }

  function TreeMeaning(env: Env, tree: Tree): (layouts: Option<seq<Rows>>)
    ensures layouts.Some? ==> |layouts.value| == |tree|
  {
    if tree == [] then Some([])
    else
      var (first, rest) := (RowsMeaning(env, tree[0]), TreeMeaning(env, tree[1..]));
      if first.None? || rest.None? then None else Some([first.value] + rest.value)
  }

  // ---------- single lines ----------

  // A tag line does what its name says.
  lemma {:induction false} TagLineIsRead(env: Env, p: Parser, name: string)
    requires p.Valid() && IsWord(name) && name[0] != '/'
    ensures Step(env, p, TagLine(name)) == OnTag(p, name + ">")
  {
    var tp := TagLine(name);
    assert tp[0] == '<' && tp[1] == name[0];
    assert tp[1..] == (name + ">") + "\n";
    WordFound(name + ">", "\n");
  }

  // A closing tag's name does not matter.
  lemma {:induction false} ClosingLineIsRead(env: Env, p: Parser, name: string)
    requires p.Valid()
    ensures Step(env, p, TagLine("/" + name)) == OnClosingTag(env, p)
  {
    var tp := TagLine("/" + name);
    assert tp[0] == '<' && tp[1] == '/';
  }

  lemma {:induction false} SettingLineIsRead(env: Env, p: Parser, s: (string, string))
    requires p.Valid() && IsSetting(s)
    ensures Step(env, p, SettingLine(s)) == OnSetting(env, p, s.0, s.1)
  {
    var tp := SettingLine(s);
    assert tp[0] == s.0[0] && !IsSpace(tp[0]);
    assert tp == s.0 + (" " + s.1 + "\n");
    WordFound(s.0, " " + s.1 + "\n");
    WordAfterSpace(s.1, "\n");
  }

  lemma {:induction false} RunAppend(env: Env, p: Parser, a: seq<string>, b: seq<string>)
    requires p.Valid()
    ensures Run(env, p, a + b) == match Run(env, p, a) case Failed(f) => Failed(f) case Parsed(q) => Run(env, q, b)
    decreases |a|
  {
    if a == [] {
      assert a + b == b;
    } else {
      assert (a + b)[0] == a[0] && (a + b)[1..] == a[1..] + b;
      var o := Step(env, p, a[0]);
      if o.Parsed? {
        RunAppend(env, o.p, a[1..], b);
      }
    }
  }

  lemma {:induction false} RunOne(env: Env, p: Parser, line: string)
    requires p.Valid()
    ensures Run(env, p, [line]) == Step(env, p, line)
  {
    assert [line][1..] == [];
  }

  // A line in front, and a line behind.
  lemma {:induction false} RunAround(env: Env, p: Parser, first: string, middle: seq<string>, last: string,
          q: Parser, r: Parser)
    requires p.Valid() && q.Valid() && r.Valid()
    requires Step(env, p, first) == Parsed(q) && Run(env, q, middle) == Parsed(r)
    ensures Run(env, p, [first] + (middle + [last])) == Step(env, r, last)
  {
    RunOne(env, p, first);
    RunAppend(env, p, [first], middle + [last]);
    RunAppend(env, q, middle, [last]);
    RunOne(env, r, last);
  }

  // The middle ends the program.
  lemma {:induction false} RunStopped(env: Env, p: Parser, first: string, middle: seq<string>, last: string,
          q: Parser)
    requires p.Valid() && q.Valid() && Step(env, p, first) == Parsed(q) && Run(env, q, middle).Failed?
    ensures Run(env, p, [first] + (middle + [last])) == Run(env, q, middle)
  {
    RunOne(env, p, first);
    RunAppend(env, p, [first], middle + [last]);
    RunAppend(env, q, middle, [last]);
  }

  lemma {:induction false} KeyTag(env: Env, p: Parser)
    requires p.Valid()
    ensures Step(env, p, TagLine("key")) == OpenKey(p)
  {
    TagLineIsRead(env, p, "key");
    assert ("key" + ">")[..3] == "key" && ("key" + ">")[0] == 'k';
  }

  lemma {:induction false} RowTag(env: Env, p: Parser)
    requires p.Valid()
    ensures Step(env, p, TagLine("row")) == OpenRow(p)
  {
    TagLineIsRead(env, p, "row");
    assert ("row" + ">")[..3] == "row" && ("row" + ">")[0] == 'r';
  }

  lemma {:induction false} LayoutTag(env: Env, p: Parser)
    requires p.Valid()
    ensures Step(env, p, TagLine("layout")) == OpenLayout(p)
  {
    TagLineIsRead(env, p, "layout");
    assert ("layout" + ">")[..6] == "layout" && ("layout" + ">")[0] == 'l';
  }

  // ---------- a key ----------

  // The key that tmp_but points to.
  function LastKey(p: Parser): KeyDef
    requires p.Valid() && p.context == InKey
  {
    p.Row()[|p.Row()| - 1]
  }

  function WithLastKey(p: Parser, k: KeyDef): Parser
    requires p.Valid() && p.context == InKey
  {
    p.WithRow(p.Row()[|p.Row()| - 1 := k])
  }

  lemma {:induction false} LastKeyTwice(p: Parser, a: KeyDef, b: KeyDef)
    requires p.Valid() && p.context == InKey
    ensures var q := WithLastKey(p, a);
            q.Valid() && q.context == InKey && LastKey(q) == a && WithLastKey(q, b) == WithLastKey(p, b)
    ensures WithLastKey(p, LastKey(p)) == p
  {
    var row, n := p.Row(), |p.Row()| - 1;
    RowTwice(p, row[n := a], row[n := b]);
    assert row[n := a][n := b] == row[n := b];
    SameRow(p);
    assert row[n := row[n]] == row;
  }

  // The parser keeps the settings of the last key of its row.
  lemma {:induction false} SettingsAreRead(env: Env, p: Parser, settings: Settings)
    requires p.Valid() && p.context == InKey && AllSettings(settings)
    ensures Run(env, p, SettingLines(settings)) ==
      match Fold(env, LastKey(p), settings)
      case None => Failed(BadCapslock)
      case Some(k) => Parsed(WithLastKey(p, k))
    decreases |settings|
  {
    if settings == [] {
      LastKeyTwice(p, LastKey(p), LastKey(p));
    } else {
      var s := settings[0];
      SettingLineIsRead(env, p, s);
      RunOne(env, p, SettingLine(s));
      RunAppend(env, p, [SettingLine(s)], SettingLines(settings[1..]));
      var o := Setting(env, LastKey(p), s.0, s.1);
      if o.Some? {
        LastKeyTwice(p, o.value, o.value);
        SettingsAreRead(env, WithLastKey(p, o.value), settings[1..]);
        var rest := Fold(env, o.value, settings[1..]);
        if rest.Some? {
          LastKeyTwice(p, o.value, rest.value);
        }
      }
    }
  }

  lemma {:induction false} SameRow(p: Parser)
    requires p.Valid() && p.tmpBox.Some?
    ensures p.WithRow(p.Row()) == p
  {
    var (l, i) := p.tmpBox.value;
    assert p.layouts[l][i := p.layouts[l][i]] == p.layouts[l];
    assert p.layouts[l := p.layouts[l]] == p.layouts;
  }

  lemma {:induction false} RowTwice(p: Parser, a: seq<KeyDef>, b: seq<KeyDef>)
    requires p.Valid() && p.tmpBox.Some?
    ensures p.WithRow(a).tmpBox == p.tmpBox && p.WithRow(a).Row() == a
    ensures p.WithRow(a).WithRow(b) == p.WithRow(b)
  {
    var (l, i) := p.tmpBox.value;
    assert p.layouts[l][i := a][i := b] == p.layouts[l][i := b];
    assert p.layouts[l := p.layouts[l][i := a]][l := p.layouts[l][i := b]] == p.layouts[l := p.layouts[l][i := b]];
  }

  // Every key goes to the end of the row opened last, with all its settings, whatever they are.
  lemma {:induction false} KeyIsRead(env: Env, p: Parser, settings: Settings)
    requires p.Valid() && p.tmpBox.Some? && AllSettings(settings)
    ensures Run(env, p, KeyLines(settings)) ==
      match Meaning(env, settings)
      case None => Failed(BadCapslock)
      case Some(k) => Parsed(p.WithRow(p.Row() + [k]).(context := NoContext))
  {
    var row, n := p.Row() + [NEW_KEY], |p.Row()|;
    RowTwice(p, row, row);
    var q := p.WithRow(row).(context := InKey);
    KeyTag(env, p);
    SettingsAreRead(env, q, settings);
    var body := SettingLines(settings);
    match Fold(env, NEW_KEY, settings) {
      case None =>
        RunStopped(env, p, TagLine("key"), body, TagLine("/key"), q);
      case Some(k) =>
        RowTwice(q, row[n := k], row);
        RunAround(env, p, TagLine("key"), body, TagLine("/key"), q, q.WithRow(row[n := k]));
        ClosingLineIsRead(env, q.WithRow(row[n := k]), "key");
        KeyEnds(env, p, k);
    }
  }

  // The closing tag measures the key that was read.
  lemma {:induction false} KeyEnds(env: Env, p: Parser, k: KeyDef)
    requires p.Valid() && p.tmpBox.Some?
    ensures
      var row := p.Row() + [NEW_KEY];
      var r := p.WithRow(row).(context := InKey).WithRow(row[|p.Row()| := k]);
      r.Valid() && OnClosingTag(env, r) == Parsed(p.WithRow(p.Row() + [Measured(env, k)]).(context := NoContext))
  {
    var row, n, measured := p.Row() + [NEW_KEY], |p.Row()|, p.Row() + [Measured(env, k)];
    RowTwice(p, row, measured);
    var q := p.WithRow(row).(context := InKey);
    assert q.Row() == row;
    RowTwice(q, row[n := k], measured);
    var r := q.WithRow(row[n := k]);
    assert r.Valid() && r.context == InKey;
    assert r.Row()[|r.Row()| - 1 := Measured(env, k)] == measured;
    assert q.WithRow(measured) == p.WithRow(row).WithRow(measured).(context := InKey);
  }
  // ---------- rows, layouts, configurations ----------

  lemma {:induction false} KeysAreRead(env: Env, p: Parser, row: seq<Settings>)
    requires p.Valid() && p.tmpBox.Some? && RowReadable(row)
    ensures Run(env, p, AllKeyLines(row)) ==
      match RowMeaning(env, row)
      case None => Failed(BadCapslock)
      case Some(keys) => Parsed(p.WithRow(p.Row() + keys).(context := if row == [] then p.context else NoContext))
    decreases |row|
  {
    if row == [] {
      assert p.Row() + [] == p.Row();
      SameRow(p);
    } else {
      KeyIsRead(env, p, row[0]);
      RunAppend(env, p, KeyLines(row[0]), AllKeyLines(row[1..]));
      var first := Meaning(env, row[0]);
      if first.Some? {
        var q := p.WithRow(p.Row() + [first.value]).(context := NoContext);
        RowTwice(p, p.Row() + [first.value], []);
        KeysAreRead(env, q, row[1..]);
        var rest := RowMeaning(env, row[1..]);
        if rest.Some? {
          OneKeyMore(p, first.value, rest.value);
        }
      }
    }
  }

  lemma {:induction false} OneKeyMore(p: Parser, k: KeyDef, rest: seq<KeyDef>)
    requires p.Valid() && p.tmpBox.Some?
    ensures
      var q := p.WithRow(p.Row() + [k]).(context := NoContext);
      q.Valid() && q.WithRow(q.Row() + rest) == p.WithRow(p.Row() + ([k] + rest)).(context := NoContext)
  {
    var row := p.Row() + [k];
    assert row + rest == p.Row() + ([k] + rest);
    RowTwice(p, row, row + rest);
    assert p.WithRow(row).(context := NoContext).WithRow(row + rest) == p.WithRow(row).WithRow(row + rest).(context := NoContext);
  }

  // The parser after some rows: they are added to the layout opened last.
  function WithRows(p: Parser, rows: Rows): Parser
    requires p.layouts != []
  {
    var l := |p.layouts| - 1;
    p.(context := NoContext, layouts := p.layouts[l := p.layouts[l] + rows],
       tmpBox := if rows == [] then p.tmpBox else Some((l, |p.layouts[l]| + |rows| - 1)))
  }

  lemma {:induction false} RowIsRead(env: Env, p: Parser, row: seq<Settings>)
    requires p.Valid() && p.layouts != [] && RowReadable(row)
    ensures Run(env, p, RowLines(row)) ==
      match RowMeaning(env, row)
      case None => Failed(BadCapslock)
      case Some(keys) => Parsed(WithRows(p, [keys]))
  {
    RowTag(env, p);
    var q := OpenRow(p).p;
    KeysAreRead(env, q, row);
    match RowMeaning(env, row) {
      case None =>
        RunStopped(env, p, TagLine("row"), AllKeyLines(row), TagLine("/row"), q);
      case Some(keys) =>
        var r := Run(env, q, AllKeyLines(row)).p;
        RunAround(env, p, TagLine("row"), AllKeyLines(row), TagLine("/row"), q, r);
        ClosingLineIsRead(env, r, "row");
        RowEnds(env, p, keys, r.context);
        assert r == q.WithRow(q.Row() + keys).(context := r.context);
    }
  }

  lemma {:induction false} RowEnds(env: Env, p: Parser, keys: seq<KeyDef>, context: Context)
    requires p.Valid() && p.layouts != [] && context != InKey
    ensures
      var q := OpenRow(p).p;
      OnClosingTag(env, q.WithRow(q.Row() + keys).(context := context)) == Parsed(WithRows(p, [keys]))
  {
    var q, l := OpenRow(p).p, |p.layouts| - 1;
    assert q.Row() + keys == keys;
    assert (p.layouts[l] + [[]])[|p.layouts[l]| := keys] == p.layouts[l] + [keys];
    assert q.WithRow(keys).layouts == p.layouts[l := p.layouts[l] + [keys]];
  }

  lemma {:induction false} RowsAreRead(env: Env, p: Parser, rows: seq<seq<Settings>>)
    requires p.Valid() && p.layouts != [] && p.context == NoContext && RowsReadable(rows)
    ensures Run(env, p, AllRowLines(rows)) ==
      match RowsMeaning(env, rows)
      case None => Failed(BadCapslock)
      case Some(r) => Parsed(WithRows(p, r))
    decreases |rows|
  {
    var l := |p.layouts| - 1;
    if rows == [] {
      assert p.layouts[l] + [] == p.layouts[l];
      assert p.layouts[l := p.layouts[l]] == p.layouts;
    } else {
      RowIsRead(env, p, rows[0]);
      RunAppend(env, p, RowLines(rows[0]), AllRowLines(rows[1..]));
      var first := RowMeaning(env, rows[0]);
      if first.Some? {
        var q := WithRows(p, [first.value]);
        RowsAreRead(env, q, rows[1..]);
        var rest := RowsMeaning(env, rows[1..]);
        if rest.Some? {
          OneRowMore(p, first.value, rest.value);
        }
      }
    }
  }

  lemma {:induction false} OneRowMore(p: Parser, row: seq<KeyDef>, rest: Rows)
    requires p.Valid() && p.layouts != []
    ensures WithRows(WithRows(p, [row]), rest) == WithRows(p, [row] + rest)
  {
    var l := |p.layouts| - 1;
    assert p.layouts[l] + [row] + rest == p.layouts[l] + ([row] + rest);
    assert WithRows(WithRows(p, [row]), rest).layouts == WithRows(p, [row] + rest).layouts;
  }

  lemma {:induction false} LayoutIsRead(env: Env, p: Parser, rows: seq<seq<Settings>>)
    requires p.Valid() && p.context == NoContext && RowsReadable(rows)
    ensures
      var o := Run(env, p, LayoutLines(rows));
      match RowsMeaning(env, rows)
      case None => o.Failed?
      case Some(r) =>
        if |p.layouts| == MAX_LAYOUTS then o == Failed(TooManyLayouts)
        else o == Parsed(WithRows(p.(layouts := p.layouts + [[]]), r))
  {
    LayoutTag(env, p);
    if |p.layouts| == MAX_LAYOUTS {
      RunOne(env, p, TagLine("layout"));
      RunAppend(env, p, [TagLine("layout")], AllRowLines(rows) + [TagLine("/layout")]);
    } else {
      var q := p.(layouts := p.layouts + [[]]);
      RowsAreRead(env, q, rows);
      match RowsMeaning(env, rows) {
        case None =>
          RunStopped(env, p, TagLine("layout"), AllRowLines(rows), TagLine("/layout"), q);
        case Some(r) =>
          RunAround(env, p, TagLine("layout"), AllRowLines(rows), TagLine("/layout"), q, WithRows(q, r));
          ClosingLineIsRead(env, WithRows(q, r), "layout");
      }
    }
  }

  // A new layout of some rows.
  lemma {:induction false} NewLayout(p: Parser, rows: Rows)
    requires p.Valid()
    ensures WithRows(p.(layouts := p.layouts + [[]]), rows).layouts == p.layouts + [rows]
  {
    assert [] + rows == rows;
  }

  // One layout, and what follows it.
  lemma {:induction false} LayoutThenMore(env: Env, p: Parser, rows: seq<seq<Settings>>,
          more: seq<string>) returns (q: Parser)
    requires p.Valid() && p.context == NoContext && RowsReadable(rows)
    ensures |p.layouts| < MAX_LAYOUTS && RowsMeaning(env, rows).Some? ==>
      && q.Valid() && Run(env, p, LayoutLines(rows) + more) == Run(env, q, more)
      && q.layouts == p.layouts + [RowsMeaning(env, rows).value] && q.context == NoContext && q.globals == p.globals
    ensures |p.layouts| == MAX_LAYOUTS || RowsMeaning(env, rows).None? ==> Run(env, p, LayoutLines(rows) + more).Failed?
    ensures |p.layouts| == MAX_LAYOUTS && RowsMeaning(env, rows).Some? ==>
      Run(env, p, LayoutLines(rows) + more) == Failed(TooManyLayouts)
  {
    q := p;
    LayoutIsRead(env, p, rows);
    RunAppend(env, p, LayoutLines(rows), more);
    var meaning := RowsMeaning(env, rows);
    if meaning.Some? && |p.layouts| < MAX_LAYOUTS {
      q := WithRows(p.(layouts := p.layouts + [[]]), meaning.value);
      NewLayout(p, meaning.value);
    }
  }

  // What reading n layouts of a given meaning after p has to give.
  predicate Agrees(p: Parser, o: Outcome, meaning: Option<seq<Rows>>, n: nat) {
    && (o.Parsed? <==> |p.layouts| + n <= MAX_LAYOUTS && meaning.Some?)
    && (o.Parsed? ==> o.p.layouts == p.layouts + meaning.value && o.p.context == NoContext && o.p.globals == p.globals)
    && (meaning.Some? && o.Failed? ==> o == Failed(TooManyLayouts))
  }

  lemma {:induction false} OneLayoutMore(p: Parser, q: Parser, first: Rows, o: Outcome, rest: Option<seq<Rows>>,
          n: nat)
    requires q.layouts == p.layouts + [first] && q.globals == p.globals && Agrees(q, o, rest, n)
    ensures Agrees(p, o, if rest.None? then None else Some([first] + rest.value), n + 1)
  {
    if rest.Some? {
      assert p.layouts + [first] + rest.value == p.layouts + ([first] + rest.value);
    }
  }

  lemma {:induction false} LayoutsAreRead(env: Env, p: Parser, tree: Tree)
    requires p.Valid() && p.context == NoContext && |p.layouts| <= MAX_LAYOUTS && Readable(tree)
    ensures Agrees(p, Run(env, p, Print(tree)), TreeMeaning(env, tree), |tree|)
    decreases |tree|
  {
    if tree == [] {
      assert p.layouts + [] == p.layouts;
    } else {
      var q := LayoutThenMore(env, p, tree[0], Print(tree[1..]));
      var first := RowsMeaning(env, tree[0]);
      if first.Some? && |p.layouts| < MAX_LAYOUTS {
        LayoutsAreRead(env, q, tree[1..]);
        OneLayoutMore(p, q, first.value, Run(env, q, Print(tree[1..])), TreeMeaning(env, tree[1..]), |tree| - 1);
      }
    }
  }

  // Printing a configuration and parsing the text gives the configuration back, exactly when it has
  // one to three layouts and no setting that ends the program.
  lemma {:induction false} RoundTrip(env: Env, tree: Tree)
    requires Readable(tree)
    ensures
      var (o, meaning) := (Parse(env, Print(tree)), TreeMeaning(env, tree));
      && (o.Parsed? <==> 1 <= |tree| <= MAX_LAYOUTS && meaning.Some?)
      && (o.Parsed? ==> o.p.layouts == meaning.value && o.p.context == NoContext && o.p.globals == DEFAULTS)
      && (meaning.Some? && |tree| > MAX_LAYOUTS ==> o == Failed(TooManyLayouts))
      && (tree == [] ==> o == Failed(NoLayout))
  {
    LayoutsAreRead(env, FRESH, tree);
  }

  // ---------- trees of keys with attributes ----------

  function RowSettings(row: seq<Attributes>): seq<Settings> {
    if row == [] then [] else [SettingsOf(row[0])] + RowSettings(row[1..])
  }

  function RowsSettings(rows: seq<seq<Attributes>>): seq<seq<Settings>> {
    if rows == [] then [] else [RowSettings(rows[0])] + RowsSettings(rows[1..])
  }

  function TreeSettings(tree: seq<seq<seq<Attributes>>>): (t: Tree)
    ensures |t| == |tree|
  {
    if tree == [] then [] else [RowsSettings(tree[0])] + TreeSettings(tree[1..])
  }

  function RowKeys(env: Env, row: seq<Attributes>): seq<KeyDef> {
    if row == [] then [] else [KeyOf(env, row[0])] + RowKeys(env, row[1..])
  }

  function RowsKeys(env: Env, rows: seq<seq<Attributes>>): Rows {
    if rows == [] then [] else [RowKeys(env, rows[0])] + RowsKeys(env, rows[1..])
  }

  function TreeKeys(env: Env, tree: seq<seq<seq<Attributes>>>): seq<Rows> {
    if tree == [] then [] else [RowsKeys(env, tree[0])] + TreeKeys(env, tree[1..])
  }

  predicate RowPrintable(row: seq<Attributes>) { forall a | a in row :: KeyPrintable(a) }

  predicate RowsPrintable(rows: seq<seq<Attributes>>) { forall row | row in rows :: RowPrintable(row) }

  predicate Printable(tree: seq<seq<seq<Attributes>>>) { forall rows | rows in tree :: RowsPrintable(rows) }

  lemma {:induction false} RowIsRebuilt(env: Env, row: seq<Attributes>)
    requires RowPrintable(row)
    ensures RowReadable(RowSettings(row)) && RowMeaning(env, RowSettings(row)) == Some(RowKeys(env, row))
  {
    if row != [] {
      SettingsAreReadable(row[0]);
      AttributesAreRebuilt(env, row[0]);
      RowIsRebuilt(env, row[1..]);
      Uncons(RowSettings(row), SettingsOf(row[0]), RowSettings(row[1..]));
    }
  }

  lemma {:induction false} Uncons<T>(s: seq<T>, first: T, rest: seq<T>)
    requires s == [first] + rest
    ensures s != [] && s[0] == first && s[1..] == rest
  {
  }

  lemma {:induction false} RowsAreRebuilt(env: Env, rows: seq<seq<Attributes>>)
    requires RowsPrintable(rows)
    ensures RowsReadable(RowsSettings(rows)) && RowsMeaning(env, RowsSettings(rows)) == Some(RowsKeys(env, rows))
  {
    if rows != [] {
      RowIsRebuilt(env, rows[0]);
      RowsAreRebuilt(env, rows[1..]);
      Uncons(RowsSettings(rows), RowSettings(rows[0]), RowsSettings(rows[1..]));
    }
  }

  lemma {:induction false} TreeIsRebuilt(env: Env, tree: seq<seq<seq<Attributes>>>)
    requires Printable(tree)
    ensures Readable(TreeSettings(tree)) && TreeMeaning(env, TreeSettings(tree)) == Some(TreeKeys(env, tree))
  {
    if tree != [] {
      RowsAreRebuilt(env, tree[0]);
      TreeIsRebuilt(env, tree[1..]);
      Uncons(TreeSettings(tree), RowsSettings(tree[0]), TreeSettings(tree[1..]));
    }
  }

  // The same for keys given by their attributes: every attribute of every key comes back.
  lemma {:induction false} AttributesRoundTrip(env: Env, tree: seq<seq<seq<Attributes>>>)
    requires Printable(tree)
    ensures
      var o := Parse(env, Print(TreeSettings(tree)));
      && (o.Parsed? <==> 1 <= |tree| <= MAX_LAYOUTS)
      && (o.Parsed? ==> o.p.layouts == TreeKeys(env, tree) && o.p.globals == DEFAULTS)
  {
    TreeIsRebuilt(env, tree);
    RoundTrip(env, TreeSettings(tree));
  }

  // ---------- lines that say nothing ----------

  function WithoutIgnored(lines: seq<string>): seq<string> {
    if lines == [] then []
    else if IsIgnored(lines[0]) then WithoutIgnored(lines[1..])
    else [lines[0]] + WithoutIgnored(lines[1..])
  }

  lemma {:induction false} RunWithoutIgnored(env: Env, p: Parser, lines: seq<string>)
    requires p.Valid()
    ensures Run(env, p, lines) == Run(env, p, WithoutIgnored(lines))
    decreases |lines|
  {
    if lines != [] {
      var o := Step(env, p, lines[0]);
      if IsIgnored(lines[0]) {
        RunWithoutIgnored(env, p, lines[1..]);
      } else {
        var rest := WithoutIgnored(lines[1..]);
        assert ([lines[0]] + rest)[0] == lines[0] && ([lines[0]] + rest)[1..] == rest;
        if o.Parsed? {
          RunWithoutIgnored(env, o.p, lines[1..]);
        }
      }
    }
  }

  // Files that differ only in their comments and blank lines are the same configuration.
  lemma {:induction false} IgnoredLinesSayNothing(env: Env, a: seq<string>, b: seq<string>)
    requires WithoutIgnored(a) == WithoutIgnored(b)
    ensures Parse(env, a) == Parse(env, b)
  {
    RunWithoutIgnored(env, FRESH, a);
    RunWithoutIgnored(env, FRESH, b);
  }

  // And so is a line that is indented.
  lemma {:induction false} IndentationSaysNothing(env: Env, p: Parser, blanks: string, line: string)
    requires p.Valid() && forall i | 0 <= i < |blanks| :: IsBlank(blanks[i])
    ensures Step(env, p, blanks + line) == Step(env, p, line)
  {
    SkipMoreBlanks(blanks, line);
  }

  // ---------- the tag of a single layout ----------

  datatype Opens = OpensRow | OpensLayout | OpensNeither

  // What a line opens, if anything.
  function Opening(line: string): Opens {
    var tp := SkipBlanks(line);
    if IsIgnored(line) || tp == [] || tp[0] != '<' || (|tp| > 1 && tp[1] == '/') || Word(tp[1..]).None? then OpensNeither
    else
      var name := Word(tp[1..]).value.0;
      if StartsWith(name, "globa") then OpensNeither
      else if StartsWith(name, "layout") then OpensLayout
      else if StartsWith(name, "row") then OpensRow
      else OpensNeither
  }

  function FirstOpening(lines: seq<string>): Opens {
    if lines == [] then OpensNeither
    else if Opening(lines[0]) != OpensNeither then Opening(lines[0])
    else FirstOpening(lines[1..])
  }

  // Until a row or a layout is opened, an empty layout makes no difference.
  lemma {:induction false} EmptyLayoutIsUnseen(env: Env, p: Parser, line: string)
    requires p.Valid() && p.layouts == []
    ensures
      var q := p.(layouts := [[]]);
      q.Valid() && match Opening(line)
        case OpensRow => Step(env, p, line) == Step(env, q, line)
        case OpensLayout => true
        case OpensNeither =>
          match Step(env, p, line)
          case Failed(f) => Step(env, q, line) == Failed(f)
          case Parsed(next) => next.layouts == [] && Step(env, q, line) == Parsed(next.(layouts := [[]]))
  {
  }

  lemma {:induction false} EmptyLayoutAhead(env: Env, p: Parser, lines: seq<string>)
    requires p.Valid() && p.layouts == [] && FirstOpening(lines) != OpensLayout
    ensures
      var q := p.(layouts := [[]]);
      q.Valid() &&
      if FirstOpening(lines) == OpensRow then Run(env, p, lines) == Run(env, q, lines)
      else match Run(env, p, lines)
        case Failed(f) => Run(env, q, lines) == Failed(f)
        case Parsed(r) => r.layouts == [] && Run(env, q, lines) == Parsed(r.(layouts := [[]]))
    decreases |lines|
  {
    if lines != [] {
      EmptyLayoutIsUnseen(env, p, lines[0]);
      var o := Step(env, p, lines[0]);
      if Opening(lines[0]) == OpensNeither && o.Parsed? {
        EmptyLayoutAhead(env, o.p, lines[1..]);
      }
    }
  }

  // A file whose first row comes before any layout is read as if a layout were opened at its start.
  // Without any row, only the file with the tag gives a keyboard.
  lemma {:induction false} LayoutTagIsOptional(env: Env, lines: seq<string>)
    requires FirstOpening(lines) != OpensLayout
    ensures
      var tagged := Parse(env, [TagLine("layout")] + lines);
      if FirstOpening(lines) == OpensRow then Parse(env, lines) == tagged
      else tagged.Parsed? ==> Parse(env, lines) == Failed(NoLayout) && tagged.p.layouts == [[]]
  {
    var first := FRESH.(layouts := [[]]);
    LayoutTag(env, FRESH);
    assert FRESH.layouts + [[]] == first.layouts;
    RunOne(env, FRESH, TagLine("layout"));
    RunAppend(env, FRESH, [TagLine("layout")], lines);
    EmptyLayoutAhead(env, FRESH, lines);
  }
}
