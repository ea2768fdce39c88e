// The settings of a key: what kb_new makes of them one after the other, and the key that a set of
// attributes describes.
module ConfigKeys {
  import opened Wrappers
  import opened ConfigText
  import opened ConfigParser
  import Modifiers = StickyModifiers

  // ---------- the attributes of a key and what they mean ----------

  datatype Attributes = Attributes(
    defaultTxt: Option<string>, shiftTxt: Option<string>, modTxt: Option<string>, switchTo: Option<int>,
    defaultKs: Option<string>, shiftKs: Option<string>, modKs: Option<string>,
    slideUp: Option<string>, slideDown: Option<string>, slideLeft: Option<string>, slideRight: Option<string>,
    image: Option<string>, scancode: Option<int>, width: Option<int>, keySpanWidth: Option<int>,
    height: Option<int>, obeyCaps: Option<bool>)

  function Or<T>(o: Option<T>, default: T): T {
    if o.Some? then o.value else default
  }

  // The modifier that a keysym's name stands for.
  function ModifierNamed(name: string): Option<Modifiers.Flag> {
    if name == "Caps_Lock" then Some(Modifiers.Caps)
    else if StartsWith(name, "Shift") then Some(Modifiers.Shift)
    else if StartsWith(name, "Control") then Some(Modifiers.Ctrl)
    else if StartsWith(name, "Alt") then Some(Modifiers.Alt)
    else if StartsWith(name, "Meta") then Some(Modifiers.Meta)
    else if StartsWith(name, "!Mo") then Some(Modifiers.Mod)
    else None
  }

  function KeysymNamed(env: Env, name: Option<string>): KeySym {
    if name.None? then 0 else env.keysym(name.value)
  }

  function DefaultKeysym(env: Env, name: Option<string>): KeySym {
    if name.Some? && ModifierNamed(name.value) == Some(Modifiers.Mod) then 0 else KeysymNamed(env, name)
  }

  function LabelWidth(env: Env, text: Option<string>): int {
    if text.Some? then env.textWidth(text.value) else 0
  }

  // The key that a set of attributes describes, attribute by attribute.
  function KeyOf(env: Env, a: Attributes): KeyDef {
    var ks := DefaultKeysym(env, a.defaultKs);
    var size := if a.image.Some? then env.imageSize(a.image.value) else (0, 0);
    var (width, height) := (Or(a.width, size.0), Or(a.height, size.1));
    KeyDef(
      a.defaultTxt, a.shiftTxt, a.modTxt,
      ks, KeysymNamed(env, a.shiftKs), KeysymNamed(env, a.modKs),
      KeysymNamed(env, a.slideUp), KeysymNamed(env, a.slideDown),
      KeysymNamed(env, a.slideLeft), KeysymNamed(env, a.slideRight),
      if a.defaultKs.Some? then ModifierNamed(a.defaultKs.value) else None,
      Or(a.obeyCaps, 0x61 <= ks <= 0x7a), a.scancode, Or(a.switchTo, -1),
      a.width.Some? || a.keySpanWidth.Some?, Or(a.keySpanWidth, 0),
      if a.image.None? && width == 0
      then Max3(LabelWidth(env, a.defaultTxt), LabelWidth(env, a.shiftTxt), LabelWidth(env, a.modTxt)) else width,
      if a.image.None? && height == 0 then env.fontHeight else height,
      a.image)
  }

  // ---------- the settings that give a key its attributes ----------

  type Settings = seq<(string, string)>

  function Maybe(name: string, value: Option<string>): Settings {
    if value.None? then [] else [(name, value.value)]
  }

  function MaybeText(n: Option<int>): Option<string> {
    if n.None? then None else Some(NumberText(n.value))
  }

  function FlagText(b: Option<bool>): Option<string> {
    if b.None? then None else Some(if b.value then "yes" else "no")
  }

  function MaybeNumber(name: string, value: Option<int>): Settings {
    Maybe(name, MaybeText(value))
  }

  function MaybeFlag(name: string, value: Option<bool>): Settings {
    Maybe(name, FlagText(value))
  }

  function Labels(a: Attributes): Settings {
    Maybe("default", a.defaultTxt) + (Maybe("shift", a.shiftTxt) + (Maybe("mod", a.modTxt) + MaybeNumber("switch", a.switchTo)))
  }

  function Keysyms(a: Attributes): Settings {
    Maybe("default_ks", a.defaultKs) + (Maybe("shift_ks", a.shiftKs) + Maybe("mod_ks", a.modKs))
  }

  function Codes(a: Attributes): Settings {
    MaybeFlag("obey_capslock", a.obeyCaps) + MaybeNumber("scancode", a.scancode)
  }

  function Slides(a: Attributes): Settings {
    Maybe("slide_up_ks", a.slideUp) + (Maybe("slide_down_ks", a.slideDown)
      + (Maybe("slide_left_ks", a.slideLeft) + Maybe("slide_right_ks", a.slideRight)))
  }

  function Sizes(a: Attributes): Settings {
    MaybeNumber("width", a.width) + (MaybeNumber("key_span_width", a.keySpanWidth) + MaybeNumber("height", a.height))
  }

  function SettingsOf(a: Attributes): Settings {
    Labels(a) + (Keysyms(a) + (Codes(a) + (Slides(a) + (Maybe("img", a.image) + Sizes(a)))))
  }

  // What can be printed: texts without white space.
  predicate TextIsWord(text: Option<string>) { text.Some? ==> IsWord(text.value) }

  predicate KeyPrintable(a: Attributes) {
    && TextIsWord(a.defaultTxt) && TextIsWord(a.shiftTxt) && TextIsWord(a.modTxt)
    && TextIsWord(a.defaultKs) && TextIsWord(a.shiftKs) && TextIsWord(a.modKs)
    && TextIsWord(a.slideUp) && TextIsWord(a.slideDown) && TextIsWord(a.slideLeft) && TextIsWord(a.slideRight)
    && TextIsWord(a.image)
  }

  predicate IsSetting(s: (string, string)) {
    IsWord(s.0) && s.0[0] != '<' && s.0[0] != '#' && IsWord(s.1)
  }

  // The settings of a key, one after the other.
  function Fold(env: Env, k: KeyDef, settings: Settings): Option<KeyDef>
    decreases |settings|
  {
    if settings == [] then Some(k)
    else match Setting(env, k, settings[0].0, settings[0].1)
      case None => None
      case Some(next) => Fold(env, next, settings[1..])
  }

  lemma {:induction false} FoldAppend(env: Env, k: KeyDef, a: Settings, b: Settings)
    ensures Fold(env, k, a + b) == match Fold(env, k, a) case None => None case Some(next) => Fold(env, next, b)
    decreases |a|
  {
    if a == [] {
      assert a + b == b;
    } else {
      assert (a + b)[0] == a[0] && (a + b)[1..] == a[1..] + b;
      var o := Setting(env, k, a[0].0, a[0].1);
      if o.Some? {
        FoldAppend(env, o.value, a[1..], b);
      }
    }
  }

  // ---------- a key's attributes ----------

  lemma {:induction false} FoldMaybe(env: Env, k: KeyDef, name: string, value: Option<string>, rest: Settings)
    ensures Fold(env, k, Maybe(name, value) + rest) ==
      if value.None? then Fold(env, k, rest)
      else match Setting(env, k, name, value.value) case None => None case Some(next) => Fold(env, next, rest)
  {
    if value.None? {
      assert Maybe(name, value) + rest == rest;
    } else {
      assert (Maybe(name, value) + rest)[0] == (name, value.value) && (Maybe(name, value) + rest)[1..] == rest;
    }
  }

  lemma {:induction false} FoldLastMaybe(env: Env, k: KeyDef, name: string, value: Option<string>)
    ensures Fold(env, k, Maybe(name, value)) == if value.None? then Some(k) else Setting(env, k, name, value.value)
  {
    FoldMaybe(env, k, name, value, []);
    assert Maybe(name, value) + [] == Maybe(name, value);
  }

  lemma {:induction false} LabelsMean(env: Env, k: KeyDef, a: Attributes)
    ensures Fold(env, k, Labels(a)) == Some(k.(
      defaultTxt := if a.defaultTxt.Some? then a.defaultTxt else k.defaultTxt,
      shiftTxt := if a.shiftTxt.Some? then a.shiftTxt else k.shiftTxt,
      modTxt := if a.modTxt.Some? then a.modTxt else k.modTxt,
      layoutSwitch := Or(a.switchTo, k.layoutSwitch)))
  {
    var k1 := if a.defaultTxt.Some? then k.(defaultTxt := a.defaultTxt) else k;
    var k2 := if a.shiftTxt.Some? then k1.(shiftTxt := a.shiftTxt) else k1;
    var k3 := if a.modTxt.Some? then k2.(modTxt := a.modTxt) else k2;
    var switch := MaybeNumber("switch", a.switchTo);
    FoldMaybe(env, k, "default", a.defaultTxt, Maybe("shift", a.shiftTxt) + (Maybe("mod", a.modTxt) + switch));
    FoldMaybe(env, k1, "shift", a.shiftTxt, Maybe("mod", a.modTxt) + switch);
    FoldMaybe(env, k2, "mod", a.modTxt, switch);
    FoldLastMaybe(env, k3, "switch", MaybeText(a.switchTo));
    if a.switchTo.Some? { AtoiReadsBack(a.switchTo.value); }
  }

  lemma {:induction false} DefaultKeysymMeans(env: Env, k: KeyDef, name: string)
    requires k.modifier == None && !k.obeyCaps
    ensures Setting(env, k, "default_ks", name) == Some(k.(
      defaultKs := DefaultKeysym(env, Some(name)), modifier := ModifierNamed(name),
      obeyCaps := 0x61 <= DefaultKeysym(env, Some(name)) <= 0x7a))
  {
    assert SetDefaultKs(env, k, name).modifier == ModifierNamed(name);
  }

  lemma {:induction false} KeysymsMean(env: Env, k: KeyDef, a: Attributes)
    requires k.defaultKs == k.shiftKs == k.modKs == 0 && k.modifier == None && !k.obeyCaps
    ensures Fold(env, k, Keysyms(a)) == Some(k.(
      defaultKs := DefaultKeysym(env, a.defaultKs),
      shiftKs := KeysymNamed(env, a.shiftKs), modKs := KeysymNamed(env, a.modKs),
      modifier := if a.defaultKs.Some? then ModifierNamed(a.defaultKs.value) else None,
      obeyCaps := 0x61 <= DefaultKeysym(env, a.defaultKs) <= 0x7a))
  {
    var ks := DefaultKeysym(env, a.defaultKs);
    var k1 := k.(defaultKs := ks, modifier := if a.defaultKs.Some? then ModifierNamed(a.defaultKs.value) else None,
                 obeyCaps := 0x61 <= ks <= 0x7a);
    var k2 := k1.(shiftKs := KeysymNamed(env, a.shiftKs));
    if a.defaultKs.Some? { DefaultKeysymMeans(env, k, a.defaultKs.value); }
    FoldMaybe(env, k, "default_ks", a.defaultKs, Maybe("shift_ks", a.shiftKs) + Maybe("mod_ks", a.modKs));
    FoldMaybe(env, k1, "shift_ks", a.shiftKs, Maybe("mod_ks", a.modKs));
    FoldLastMaybe(env, k2, "mod_ks", a.modKs);
  }

  lemma {:induction false} CodesMean(env: Env, k: KeyDef, a: Attributes)
    requires k.scancode == None
    ensures Fold(env, k, Codes(a)) == Some(k.(obeyCaps := Or(a.obeyCaps, k.obeyCaps), scancode := a.scancode))
  {
    FoldMaybe(env, k, "obey_capslock", FlagText(a.obeyCaps), MaybeNumber("scancode", a.scancode));
    FoldLastMaybe(env, k.(obeyCaps := Or(a.obeyCaps, k.obeyCaps)), "scancode", MaybeText(a.scancode));
    assert |"yes"| != |"no"|;
    if a.scancode.Some? { AtoiReadsBack(a.scancode.value); }
  }

  lemma {:induction false} SlidesMean(env: Env, k: KeyDef, a: Attributes)
    requires k.slideUp == k.slideDown == k.slideLeft == k.slideRight == 0
    ensures Fold(env, k, Slides(a)) == Some(k.(
      slideUp := KeysymNamed(env, a.slideUp), slideDown := KeysymNamed(env, a.slideDown),
      slideLeft := KeysymNamed(env, a.slideLeft), slideRight := KeysymNamed(env, a.slideRight)))
  {
    var right := Maybe("slide_right_ks", a.slideRight);
    var k1 := k.(slideUp := KeysymNamed(env, a.slideUp));
    var k2 := k1.(slideDown := KeysymNamed(env, a.slideDown));
    var k3 := k2.(slideLeft := KeysymNamed(env, a.slideLeft));
    FoldMaybe(env, k, "slide_up_ks", a.slideUp, Maybe("slide_down_ks", a.slideDown) + (Maybe("slide_left_ks", a.slideLeft) + right));
    FoldMaybe(env, k1, "slide_down_ks", a.slideDown, Maybe("slide_left_ks", a.slideLeft) + right);
    FoldMaybe(env, k2, "slide_left_ks", a.slideLeft, right);
    FoldLastMaybe(env, k3, "slide_right_ks", a.slideRight);
  }

  lemma {:induction false} SizesMean(env: Env, k: KeyDef, a: Attributes)
    requires k.keySpanWidth == 0 && !k.isWidthSpec
    ensures Fold(env, k, Sizes(a)) == Some(k.(
      cWidth := Or(a.width, k.cWidth), cHeight := Or(a.height, k.cHeight),
      isWidthSpec := a.width.Some? || a.keySpanWidth.Some?, keySpanWidth := Or(a.keySpanWidth, 0)))
  {
    var k1 := k.(isWidthSpec := a.width.Some?, cWidth := Or(a.width, k.cWidth));
    var k2 := k1.(isWidthSpec := a.width.Some? || a.keySpanWidth.Some?, keySpanWidth := Or(a.keySpanWidth, 0));
    NumberMeans(env, k, "width", a.width, MaybeNumber("key_span_width", a.keySpanWidth) + MaybeNumber("height", a.height));
    NumberMeans(env, k1, "key_span_width", a.keySpanWidth, MaybeNumber("height", a.height));
    NumberMeans(env, k2, "height", a.height, []);
    assert MaybeNumber("height", a.height) + [] == MaybeNumber("height", a.height);
  }

  // One of the three sizes.
  lemma {:induction false} NumberMeans(env: Env, k: KeyDef, name: string, n: Option<int>, rest: Settings)
    requires name in {"width", "key_span_width", "height"}
    ensures Fold(env, k, MaybeNumber(name, n) + rest) ==
      Fold(env,
           if n.None? then k
           else if name == "width" then k.(isWidthSpec := true, cWidth := n.value)
           else if name == "height" then k.(cHeight := n.value)
           else k.(isWidthSpec := true, keySpanWidth := n.value),
           rest)
  {
    FoldMaybe(env, k, name, MaybeText(n), rest);
    if n.Some? { AtoiReadsBack(n.value); }
  }

  // The key as it is after all settings but the sizes.
  function Unsized(env: Env, a: Attributes): KeyDef {
    NEW_KEY.(
      defaultTxt := a.defaultTxt, shiftTxt := a.shiftTxt, modTxt := a.modTxt, layoutSwitch := Or(a.switchTo, -1),
      defaultKs := DefaultKeysym(env, a.defaultKs),
      shiftKs := KeysymNamed(env, a.shiftKs), modKs := KeysymNamed(env, a.modKs),
      modifier := if a.defaultKs.Some? then ModifierNamed(a.defaultKs.value) else None,
      obeyCaps := Or(a.obeyCaps, 0x61 <= DefaultKeysym(env, a.defaultKs) <= 0x7a), scancode := a.scancode,
      slideUp := KeysymNamed(env, a.slideUp), slideDown := KeysymNamed(env, a.slideDown),
      slideLeft := KeysymNamed(env, a.slideLeft), slideRight := KeysymNamed(env, a.slideRight))
  }

  lemma {:induction false} NamesMean(env: Env, a: Attributes, rest: Settings)
    ensures Fold(env, NEW_KEY, Labels(a) + (Keysyms(a) + (Codes(a) + (Slides(a) + rest)))) == Fold(env, Unsized(env, a), rest)
  {
    LabelsMean(env, NEW_KEY, a);
    FoldAppend(env, NEW_KEY, Labels(a), Keysyms(a) + (Codes(a) + (Slides(a) + rest)));
    var k1 := Fold(env, NEW_KEY, Labels(a)).value;
    KeysymsMean(env, k1, a);
    FoldAppend(env, k1, Keysyms(a), Codes(a) + (Slides(a) + rest));
    var k2 := Fold(env, k1, Keysyms(a)).value;
    CodesMean(env, k2, a);
    FoldAppend(env, k2, Codes(a), Slides(a) + rest);
    var k3 := Fold(env, k2, Codes(a)).value;
    SlidesMean(env, k3, a);
    FoldAppend(env, k3, Slides(a), rest);
  }

  // What a key is after its settings and its closing tag.
  function Meaning(env: Env, settings: Settings): Option<KeyDef> {
    match Fold(env, NEW_KEY, settings)
    case None => None
    case Some(k) => Some(Measured(env, k))
  }

  // The canonical settings of a key give back every attribute.
  lemma {:induction false} AttributesAreRebuilt(env: Env, a: Attributes)
    ensures Meaning(env, SettingsOf(a)) == Some(KeyOf(env, a))
  {
    NamesMean(env, a, Maybe("img", a.image) + Sizes(a));
    var k := Unsized(env, a);
    var size := if a.image.Some? then env.imageSize(a.image.value) else (0, 0);
    FoldMaybe(env, k, "img", a.image, Sizes(a));
    SizesMean(env, k.(image := a.image, cWidth := size.0, cHeight := size.1), a);
  }

  // ---------- they are settings that can be read ----------

  predicate AllSettings(settings: Settings) {
    forall s | s in settings :: IsSetting(s)
  }

  lemma {:induction false} NumberIsSetting(name: string, value: Option<int>)
    requires IsWord(name) && name[0] != '<' && name[0] != '#'
    ensures AllSettings(MaybeNumber(name, value))
  {
    if value.Some? { AtoiReadsBack(value.value); }
  }

  lemma {:induction false} TextIsSetting(name: string, value: Option<string>)
    requires IsWord(name) && name[0] != '<' && name[0] != '#' && TextIsWord(value)
    ensures AllSettings(Maybe(name, value))
  {
  }

  lemma {:induction false} LabelsAreSettings(a: Attributes)
    requires KeyPrintable(a)
    ensures AllSettings(Labels(a))
  {
    TextIsSetting("default", a.defaultTxt);
    TextIsSetting("shift", a.shiftTxt);
    TextIsSetting("mod", a.modTxt);
    NumberIsSetting("switch", a.switchTo);
  }

  lemma {:induction false} KeysymsAreSettings(a: Attributes)
    requires KeyPrintable(a)
    ensures AllSettings(Keysyms(a))
  {
    TextIsSetting("default_ks", a.defaultKs);
    TextIsSetting("shift_ks", a.shiftKs);
    TextIsSetting("mod_ks", a.modKs);
  }

  lemma {:induction false} SlidesAreSettings(a: Attributes)
    requires KeyPrintable(a)
    ensures AllSettings(Slides(a))
  {
    TextIsSetting("slide_up_ks", a.slideUp);
    TextIsSetting("slide_down_ks", a.slideDown);
    TextIsSetting("slide_left_ks", a.slideLeft);
    TextIsSetting("slide_right_ks", a.slideRight);
  }

  lemma {:induction false} NumbersAreSettings(a: Attributes)
    ensures AllSettings(Codes(a)) && AllSettings(Sizes(a))
  {
    NumberIsSetting("scancode", a.scancode);
    NumberIsSetting("width", a.width);
    NumberIsSetting("key_span_width", a.keySpanWidth);
    NumberIsSetting("height", a.height);
  }

  lemma {:induction false} SettingsAreReadable(a: Attributes)
    requires KeyPrintable(a)
    ensures AllSettings(SettingsOf(a))
  {
    LabelsAreSettings(a);
    KeysymsAreSettings(a);
    NumbersAreSettings(a);
    SlidesAreSettings(a);
    TextIsSetting("img", a.image);
    AllSettingsJoin(Labels(a), Keysyms(a), Codes(a), Slides(a), Maybe("img", a.image), Sizes(a));
  }

  lemma {:induction false} AllSettingsJoin(a: Settings, b: Settings, c: Settings, d: Settings, e: Settings,
          f: Settings)
    requires AllSettings(a) && AllSettings(b) && AllSettings(c) && AllSettings(d) && AllSettings(e) && AllSettings(f)
    ensures AllSettings(a + (b + (c + (d + (e + f)))))
  {
  }

  // The names that make a key a modifier key, by their beginnings.
  lemma {:induction false} ModifierNames(rest: string)
    ensures ModifierNamed("Caps_Lock") == Some(Modifiers.Caps)
    ensures ModifierNamed("Shift" + rest) == Some(Modifiers.Shift)
    ensures ModifierNamed("Control" + rest) == Some(Modifiers.Ctrl)
    ensures ModifierNamed("Alt" + rest) == Some(Modifiers.Alt)
    ensures ModifierNamed("Meta" + rest) == Some(Modifiers.Meta)
    ensures ModifierNamed("!Mo" + rest) == Some(Modifiers.Mod)
    ensures rest != [] && rest[0] !in {'C', 'S', 'A', 'M', '!'} ==> ModifierNamed(rest) == None
  {
    assert ("Shift" + rest)[0] == 'S' && ("Control" + rest)[0] == 'C' && ("Control" + rest)[1] == 'o';
    assert ("Alt" + rest)[0] == 'A' && ("Meta" + rest)[0] == 'M' && ("!Mo" + rest)[0] == '!';
    assert "Caps_Lock"[0] == 'C' && "Caps_Lock"[1] == 'a';
  }
}
