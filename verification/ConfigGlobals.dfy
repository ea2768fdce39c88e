// The global section of a configuration, and lines outside of keys: what their settings mean, one
// after the other, what they leave alone, and which lines end the program.
module ConfigGlobals {
  import opened Wrappers
  import opened ConfigText
  import opened ConfigParser
  import opened ConfigKeys
  import opened ConfigRoundTrip

  // ---------- what a global section means ----------

  // The value that is set last under a name.
  function LastOf(settings: Settings, name: string): Option<string> {
    if settings == [] then None
    else
      var later := LastOf(settings[1..], name);
      if later.None? && settings[0].0 == name then Some(settings[0].1) else later
  }

  // The theme that is set last. Values other than the two words are none.
  function LastTheme(settings: Settings): Option<Theme> {
    if settings == [] then None
    else
      var later := LastTheme(settings[1..]);
      if later.Some? || settings[0].0 != "button_style" then later
      else if settings[0].1 == "square" then Some(Square)
      else if settings[0].1 == "plain" then Some(Plain)
      else None
  }

  function LastNumber(settings: Settings, name: string, start: int): int {
    match LastOf(settings, name)
    case None => start
    case Some(value) => Atoi(value)
  }

  function GlobalsBy(g: Globals, settings: Settings): Globals {
    Globals(Or(LastTheme(settings), g.theme), LastNumber(settings, "slide_margin", g.slideMargin),
            LastNumber(settings, "repeat_delay", g.keyDelayRepeat), LastNumber(settings, "repeat_time", g.keyRepeat))
  }

  lemma {:induction false} OneSettingMore(g: Globals, s: (string, string), rest: Settings)
    ensures GlobalsBy(OnGlobal(g, s.0, s.1), rest) == GlobalsBy(g, [s] + rest)
  {
    assert ([s] + rest)[0] == s && ([s] + rest)[1..] == rest;
  }

  // The lines of a section: each field is the one set last under its own name, in any order and with
  // any other settings between.
  lemma {:induction false} GlobalSettingsAreRead(env: Env, p: Parser, settings: Settings)
    requires p.Valid() && p.context == KbdDef && AllSettings(settings)
    ensures Run(env, p, SettingLines(settings)) == Parsed(p.(globals := GlobalsBy(p.globals, settings)))
    decreases |settings|
  {
    if settings != [] {
      var s := settings[0];
      SettingLineIsRead(env, p, s);
      RunOne(env, p, SettingLine(s));
      RunAppend(env, p, [SettingLine(s)], SettingLines(settings[1..]));
      GlobalSettingsAreRead(env, p.(globals := OnGlobal(p.globals, s.0, s.1)), settings[1..]);
      OneSettingMore(p.globals, s, settings[1..]);
      assert [s] + settings[1..] == settings;
    }
  }

  function GlobalLines(settings: Settings): seq<string> {
    [TagLine("global")] + (SettingLines(settings) + [TagLine("/global")])
  }

  lemma {:induction false} GlobalSectionIsRead(env: Env, p: Parser, settings: Settings)
    requires p.Valid() && AllSettings(settings)
    ensures Run(env, p, GlobalLines(settings))
            == Parsed(p.(context := NoContext, globals := GlobalsBy(p.globals, settings)))
  {
    var q := p.(context := KbdDef);
    TagLineIsRead(env, p, "global");
    assert ("global" + ">")[..5] == "globa";
    GlobalSettingsAreRead(env, q, settings);
    var r := q.(globals := GlobalsBy(p.globals, settings));
    RunAround(env, p, TagLine("global"), SettingLines(settings), TagLine("/global"), q, r);
    ClosingLineIsRead(env, r, "global");
  }

  // ---------- the round trip ----------

  function ThemeText(t: Theme): string {
    match t
    case Rounded => "rounded"
    case Square => "square"
    case Plain => "plain"
  }

  function SettingsOfGlobals(g: Globals): Settings {
    [("button_style", ThemeText(g.theme)), ("slide_margin", NumberText(g.slideMargin)),
     ("repeat_delay", NumberText(g.keyDelayRepeat)), ("repeat_time", NumberText(g.keyRepeat))]
  }

  lemma {:induction false} NumberSetting(name: string, n: int)
    requires name == "slide_margin" || name == "repeat_delay" || name == "repeat_time"
    ensures IsSetting((name, NumberText(n)))
  {
    AtoiReadsBack(n);
  }

  lemma {:induction false} ThemeSetting(t: Theme)
    ensures IsSetting(("button_style", ThemeText(t)))
  {
  }

  lemma {:induction false} GlobalsAreSettings(g: Globals)
    ensures AllSettings(SettingsOfGlobals(g))
  {
    ThemeSetting(g.theme);
    NumberSetting("slide_margin", g.slideMargin);
    NumberSetting("repeat_delay", g.keyDelayRepeat);
    NumberSetting("repeat_time", g.keyRepeat);
  }

  // The four settings of a section, in turn.
  lemma {:induction false} LastOfFour(a: (string, string), b: (string, string), c: (string, string), d: (string, string),
          name: string)
    ensures LastOf([a, b, c, d], name) ==
      if d.0 == name then Some(d.1) else if c.0 == name then Some(c.1)
      else if b.0 == name then Some(b.1) else if a.0 == name then Some(a.1) else None
  {
    assert [a, b, c, d][1..] == [b, c, d] && [b, c, d][1..] == [c, d] && [c, d][1..] == [d] && [d][1..] == [];
    assert LastOf([d], name) == if d.0 == name then Some(d.1) else None;
    assert LastOf([c, d], name) == if d.0 == name then Some(d.1) else if c.0 == name then Some(c.1) else None;
  }

  lemma {:induction false} ThemeOfFirst(value: string, rest: Settings)
    requires forall s | s in rest :: s.0 != "button_style"
    ensures LastTheme(rest) == None
    ensures LastTheme([("button_style", value)] + rest)
            == if value == "square" then Some(Square) else if value == "plain" then Some(Plain) else None
    decreases |rest|
  {
    assert ([("button_style", value)] + rest)[1..] == rest;
    if rest != [] {
      assert rest[0] in rest;
      ThemeOfFirst(value, rest[1..]);
    }
  }

  lemma {:induction false} GlobalsAreRebuilt(g: Globals)
    ensures GlobalsBy(DEFAULTS, SettingsOfGlobals(g)) == g
  {
    var (a, b) := (("button_style", ThemeText(g.theme)), ("slide_margin", NumberText(g.slideMargin)));
    var (c, d) := (("repeat_delay", NumberText(g.keyDelayRepeat)), ("repeat_time", NumberText(g.keyRepeat)));
    LastOfFour(a, b, c, d, "slide_margin");
    LastOfFour(a, b, c, d, "repeat_delay");
    LastOfFour(a, b, c, d, "repeat_time");
    assert [a, b, c, d] == [a] + [b, c, d];
    assert |"button_style"| == |"slide_margin"| && "button_style"[0] != "slide_margin"[0];
    assert "repeat_delay"[7] != "repeat_time"[7] && "button_style"[0] != 'r';
    ThemeOfFirst(ThemeText(g.theme), [b, c, d]);
    AtoiReadsBack(g.slideMargin);
    AtoiReadsBack(g.keyDelayRepeat);
    AtoiReadsBack(g.keyRepeat);
    assert |"rounded"| == 7 && |"square"| == 6 && |"plain"| == 5;
  }

  // A global section and a tree, printed and parsed, give back exactly these globals and that tree.
  lemma {:induction false} GlobalsRoundTrip(env: Env, g: Globals, tree: Tree)
    requires Readable(tree)
    ensures
      var (o, meaning) := (Parse(env, GlobalLines(SettingsOfGlobals(g)) + Print(tree)), TreeMeaning(env, tree));
      && (o.Parsed? <==> 1 <= |tree| <= 3 && meaning.Some?)
      && (o.Parsed? ==> o.p.globals == g && o.p.layouts == meaning.value && o.p.context == NoContext)
  {
    var settings := SettingsOfGlobals(g);
    GlobalsAreSettings(g);
    GlobalSectionIsRead(env, FRESH, settings);
    GlobalsAreRebuilt(g);
    RunAppend(env, FRESH, GlobalLines(settings), Print(tree));
    LayoutsAreRead(env, FRESH.(globals := g), tree);
  }

  // The same for keys given by their attributes.
  lemma {:induction false} WholeRoundTrip(env: Env, g: Globals, tree: seq<seq<seq<Attributes>>>)
    requires Printable(tree)
    ensures
      var o := Parse(env, GlobalLines(SettingsOfGlobals(g)) + Print(TreeSettings(tree)));
      && (o.Parsed? <==> 1 <= |tree| <= 3)
      && (o.Parsed? ==> o.p.globals == g && o.p.layouts == TreeKeys(env, tree))
  {
    TreeIsRebuilt(env, tree);
    GlobalsRoundTrip(env, g, TreeSettings(tree));
  }

  // Without a global section the values of kb_new stay.
  lemma {:induction false} DefaultsStay(env: Env, tree: Tree)
    requires Readable(tree) && 1 <= |tree| <= 3 && TreeMeaning(env, tree).Some?
    ensures Parse(env, Print(tree)).Parsed? && Parse(env, Print(tree)).p.globals == Globals(Rounded, 0, 10, 5)
  {
    RoundTrip(env, tree);
  }

  // ---------- lines outside of sections, and lines that end the program ----------

  // A setting outside of keys and of the global section says nothing.
  lemma {:induction false} StraySettingsSayNothing(env: Env, p: Parser, s: (string, string))
    requires p.Valid() && IsSetting(s) && (p.context == NoContext || p.context == RowDef)
    ensures Step(env, p, SettingLine(s)) == Parsed(p)
  {
    SettingLineIsRead(env, p, s);
  }

  // Nor does a line with nothing but blanks, or one that has a # after them.
  lemma {:induction false} CommentsSayNothing(env: Env, p: Parser, blanks: string, c: char, rest: string)
    requires p.Valid() && (forall i | 0 <= i < |blanks| :: blanks[i] == ' ' || blanks[i] == '\t') && (c == '\n' || c == '#')
    ensures Step(env, p, blanks + ([c] + rest)) == Parsed(p)
  {
    SkipMoreBlanks(blanks, [c] + rest);
    assert ([c] + rest)[0] == c && SkipBlanks([c] + rest) == [c] + rest;
  }

  // The lines that end the program: a setting without a value, a tag without a name, a key without a
  // row, a fourth layout, and a word other than yes and no for obey_capslock.
  lemma {:induction false} LineWithOneWord(env: Env, p: Parser, word: string)
    requires p.Valid() && IsWord(word) && word[0] != '<' && word[0] != '#'
    ensures Step(env, p, word + "\n") == Failed(BadSetting)
  {
    var line := word + "\n";
    assert line[0] == word[0] && !IsSpace(line[0]);
    WordFound(word, "\n");
    assert SkipSpaces("\n") == SkipSpaces([]);
    assert Word("\n").None?;
  }

  lemma {:induction false} TagWithoutName(env: Env, p: Parser)
    requires p.Valid()
    ensures Step(env, p, "<\n") == Failed(BadTag)
  {
    assert "<\n"[1..] == "\n" && SkipSpaces("\n") == SkipSpaces([]);
  }

  lemma {:induction false} KeyNeedsRow(env: Env, p: Parser)
    requires p.Valid()
    ensures Step(env, p, "<key>\n") == Failed(NoRow) <==> p.tmpBox.None?
  {
    KeyTag(env, p);
    assert TagLine("key") == "<key>\n";
  }

  lemma {:induction false} CapslockIsYesOrNo(env: Env, p: Parser, value: string)
    requires p.Valid() && IsWord(value) && p.context == InKey
    ensures Step(env, p, "obey_capslock " + value + "\n") == Failed(BadCapslock) <==> value != "yes" && value != "no"
  {
    var s := ("obey_capslock", value);
    assert IsWord(s.0);
    SettingLineIsRead(env, p, s);
    assert SettingLine(s) == "obey_capslock " + value + "\n";
  }
}
