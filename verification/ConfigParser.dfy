// The configuration parser of kb_new. It reads line by line with one flat context variable, the row
// and the key it built last, and no stack. X's tables (keysym names, text extents, images) are
// given functions.
module ConfigParser {
  import opened Wrappers
  import opened ConfigText
  import Modifiers = StickyModifiers

  const MAX_LAYOUTS := 3

  type KeySym = nat

  datatype Env = Env(keysym: string -> KeySym, textWidth: string -> int, fontHeight: int, imageSize: string -> (int, int))

  // ---------- keys ----------

  datatype KeyDef = KeyDef(
    defaultTxt: Option<string>, shiftTxt: Option<string>, modTxt: Option<string>,
    defaultKs: KeySym, shiftKs: KeySym, modKs: KeySym,
    slideUp: KeySym, slideDown: KeySym, slideLeft: KeySym, slideRight: KeySym,
    modifier: Option<Modifiers.Flag>, obeyCaps: bool, scancode: Option<int>, layoutSwitch: int,
    isWidthSpec: bool, keySpanWidth: int, cWidth: int, cHeight: int, image: Option<string>)

  // button_new. The scancode is left as malloc returns it, so it is unknown here.
  const NEW_KEY := KeyDef(None, None, None, 0, 0, 0, 0, 0, 0, 0, None, false, None, -1, false, 0, 0, 0, None)

  predicate StartsWith(s: string, prefix: string) { prefix <= s }

  // button_set_txt_ks.
  function SetDefaultKs(env: Env, k: KeyDef, txt: string): KeyDef {
    if txt == "Caps_Lock" then Named(env, k.(modifier := Some(Modifiers.Caps)), txt)
    else if StartsWith(txt, "Shift") then Named(env, k.(modifier := Some(Modifiers.Shift)), txt)
    else if StartsWith(txt, "Control") then Named(env, k.(modifier := Some(Modifiers.Ctrl)), txt)
    else if StartsWith(txt, "Alt") then Named(env, k.(modifier := Some(Modifiers.Alt)), txt)
    else if StartsWith(txt, "Meta") then Named(env, k.(modifier := Some(Modifiers.Meta)), txt)
    else if StartsWith(txt, "!Mo") then k.(modifier := Some(Modifiers.Mod), defaultKs := 0)
    else Named(env, k, txt)
  }

  function Named(env: Env, k: KeyDef, txt: string): KeyDef {
    var ks := env.keysym(txt);
    k.(defaultKs := ks, obeyCaps := k.obeyCaps || 0x61 <= ks <= 0x7a)
  }

  // One setting inside a key; a bad value for obey_capslock ends the program.
  function Setting(env: Env, k: KeyDef, name: string, value: string): Option<KeyDef> {
    if name == "default" then Some(k.(defaultTxt := Some(value)))
    else if name == "shift" then Some(k.(shiftTxt := Some(value)))
    else if name == "switch" then Some(k.(layoutSwitch := Atoi(value)))
    else if name == "mod" then Some(k.(modTxt := Some(value)))
    else if name == "default_ks" then Some(SetDefaultKs(env, k, value))
    else if name == "shift_ks" then Some(k.(shiftKs := env.keysym(value)))
    else if name == "mod_ks" then Some(k.(modKs := env.keysym(value)))
    else if name == "img" then
      Some(k.(image := Some(value), cWidth := env.imageSize(value).0, cHeight := env.imageSize(value).1))
    else if name == "slide_up_ks" then Some(if env.keysym(value) == 0 then k else k.(slideUp := env.keysym(value)))
    else if name == "slide_down_ks" then Some(if env.keysym(value) == 0 then k else k.(slideDown := env.keysym(value)))
    else if name == "slide_left_ks" then Some(if env.keysym(value) == 0 then k else k.(slideLeft := env.keysym(value)))
    else if name == "slide_right_ks" then Some(if env.keysym(value) == 0 then k else k.(slideRight := env.keysym(value)))
    else if name == "scancode" then Some(k.(scancode := Some(Atoi(value))))
    else if name == "width" then Some(k.(isWidthSpec := true, cWidth := Atoi(value)))
    else if name == "key_span_width" then Some(k.(isWidthSpec := true, keySpanWidth := Atoi(value)))
    else if name == "height" then Some(k.(cHeight := Atoi(value)))
    else if name == "obey_capslock" then
      if value == "yes" then Some(k.(obeyCaps := true))
      else if value == "no" then Some(k.(obeyCaps := false))
      else None
    else Some(k)
  }

  function Max3(a: int, b: int, c: int): (m: int)
    ensures m >= a && m >= b && m >= c && (m == a || m == b || m == c)
  {
    var ab := if b > a then b else a;
    if c > ab then c else ab
  }

  // What a key's closing tag does: a size that is still open is taken from the labels and the font.
  function Measured(env: Env, k: KeyDef): KeyDef {
    var width := (t: Option<string>) => if t.Some? then env.textWidth(t.value) else 0;
    var w := if k.image.Some? || k.cWidth != 0 then k.cWidth
             else Max3(width(k.defaultTxt), width(k.shiftTxt), width(k.modTxt));
    k.(cWidth := w, cHeight := if k.image.Some? || k.cHeight != 0 then k.cHeight else env.fontHeight)
  }

  // ---------- the parser's state ----------

  datatype Theme = Rounded | Square | Plain

  datatype Globals = Globals(theme: Theme, slideMargin: int, keyDelayRepeat: int, keyRepeat: int)

  const DEFAULTS := Globals(Rounded, 0, 10, 5)

  datatype Context = NoContext | KbdDef | RowDef | InKey

  // Why the program ends, or what it runs into: a null row, or a fourth layout.
  datatype Fault = BadTag | BadSetting | BadCapslock | NoRow | TooManyLayouts | NoLayout

  type Rows = seq<seq<KeyDef>>

  // The layouts so far, and the row and the key that tmp_box and tmp_but point to: the row is given
  // by its layout and its place in it, the key is the last of that row.
  datatype Parser = Parser(context: Context, layouts: seq<Rows>, tmpBox: Option<(nat, nat)>, globals: Globals) {
    predicate Valid() {
      && (tmpBox.Some? ==> tmpBox.value.0 < |layouts| && tmpBox.value.1 < |layouts[tmpBox.value.0]|)
      && (context == InKey ==> tmpBox.Some? && Row() != [])
    }

    function Row(): seq<KeyDef>
      requires tmpBox.Some? && tmpBox.value.0 < |layouts| && tmpBox.value.1 < |layouts[tmpBox.value.0]|
    {
      layouts[tmpBox.value.0][tmpBox.value.1]
    }

    function WithRow(row: seq<KeyDef>): Parser
      requires tmpBox.Some? && tmpBox.value.0 < |layouts| && tmpBox.value.1 < |layouts[tmpBox.value.0]|
    {
      var (l, i) := tmpBox.value;
      this.(layouts := layouts[l := layouts[l][i := row]])
    }
  }

  const FRESH := Parser(NoContext, [], None, DEFAULTS)

  datatype Outcome = Parsed(p: Parser) | Failed(fault: Fault)

  // ---------- one line ----------

  function OpenLayout(p: Parser): Outcome {
    if |p.layouts| == MAX_LAYOUTS then Failed(TooManyLayouts) else Parsed(p.(layouts := p.layouts + [[]]))
  }

  // A row goes to the layout that was opened last; without one, the parser opens one.
  function OpenRow(p: Parser): (o: Outcome)
    requires p.Valid()
    ensures o.Parsed? && o.p.Valid()
  {
    var q := if p.layouts == [] then p.(layouts := [[]]) else p;
    var l := |q.layouts| - 1;
    Parsed(q.(context := RowDef, layouts := q.layouts[l := q.layouts[l] + [[]]], tmpBox := Some((l, |q.layouts[l]|))))
  }

  function OpenKey(p: Parser): (o: Outcome)
    requires p.Valid()
    ensures o.Parsed? ==> o.p.Valid()
  {
    if p.tmpBox.None? then Failed(NoRow)
    else Parsed(p.WithRow(p.Row() + [NEW_KEY]).(context := InKey))
  }

  function OnTag(p: Parser, name: string): (o: Outcome)
    requires p.Valid()
    ensures o.Parsed? ==> o.p.Valid()
  {
    if StartsWith(name, "globa") then Parsed(p.(context := KbdDef))
    else if StartsWith(name, "layout") then OpenLayout(p)
    else if StartsWith(name, "row") then OpenRow(p)
    else if StartsWith(name, "key") then OpenKey(p)
    else Parsed(p)
  }

  function OnClosingTag(env: Env, p: Parser): (o: Outcome)
    requires p.Valid()
    ensures o.Parsed? && o.p.Valid()
  {
    var q := if p.context == InKey
             then var n := |p.Row()| - 1; p.WithRow(p.Row()[n := Measured(env, p.Row()[n])])
             else p;
    Parsed(q.(context := NoContext))
  }

  function OnGlobal(g: Globals, name: string, value: string): Globals {
    if name == "button_style" then
      g.(theme := if value == "square" then Square else if value == "plain" then Plain else g.theme)
    else if name == "slide_margin" then g.(slideMargin := Atoi(value))
    else if name == "repeat_delay" then g.(keyDelayRepeat := Atoi(value))
    else if name == "repeat_time" then g.(keyRepeat := Atoi(value))
    else g
  }

  function OnSetting(env: Env, p: Parser, name: string, value: string): (o: Outcome)
    requires p.Valid()
    ensures o.Parsed? ==> o.p.Valid()
  {
    match p.context
    case NoContext => Parsed(p)
    case RowDef => Parsed(p)
    case KbdDef => Parsed(p.(globals := OnGlobal(p.globals, name, value)))
    case InKey =>
      var n := |p.Row()| - 1;
      match Setting(env, p.Row()[n], name, value)
      case None => Failed(BadCapslock)
      case Some(k) => Parsed(p.WithRow(p.Row()[n := k]))
  }

  predicate IsIgnored(line: string) {
    var tp := SkipBlanks(line);
    tp != [] && (tp[0] == '\n' || tp[0] == '#')
  }

  // One line, as fgets returns it.
  function Step(env: Env, p: Parser, line: string): (o: Outcome)
    requires p.Valid()
    ensures o.Parsed? ==> o.p.Valid()
  {
    var tp := SkipBlanks(line);
    if IsIgnored(line) then Parsed(p)
    else if tp != [] && tp[0] == '<' then
      if |tp| > 1 && tp[1] == '/' then OnClosingTag(env, p)
      else match Word(tp[1..])
        case None => Failed(BadTag)
        case Some((name, _)) => OnTag(p, name)
    else
      match Word(tp)
      case None => Failed(BadSetting)
      case Some((name, rest)) =>
        match Word(rest)
        case None => Failed(BadSetting)
        case Some((value, _)) => OnSetting(env, p, name, value)
  }

  function Run(env: Env, p: Parser, lines: seq<string>): (o: Outcome)
    requires p.Valid()
    ensures o.Parsed? ==> o.p.Valid()
    decreases |lines|
  {
    if lines == [] then Parsed(p)
    else match Step(env, p, lines[0])
      case Failed(f) => Failed(f)
      case Parsed(q) => Run(env, q, lines[1..])
  }

  // A whole file: what comes after the loop needs a layout to start from.
  function Parse(env: Env, lines: seq<string>): Outcome {
    match Run(env, FRESH, lines)
    case Failed(f) => Failed(f)
    case Parsed(p) => if p.layouts == [] then Failed(NoLayout) else Parsed(p)
  }

  // ---------- the loop of kb_new ----------

  class Reader {
    const env: Env
    var context: Context
    var layouts: seq<Rows>
    var tmpBox: Option<(nat, nat)>
    var globals: Globals

    constructor (env: Env)
      ensures this.env == env && Abs() == FRESH
    {
      this.env := env;
      context, layouts, tmpBox, globals := NoContext, [], None, DEFAULTS;
    }

    function Abs(): Parser
      reads this
    {
      Parser(context, layouts, tmpBox, globals)
    }

    // The branch for a line that starts with an opening tag.
    method OpenTag(tag: string) returns (fault: Option<Fault>)
      requires Abs().Valid()
      modifies this
      ensures OnTag(old(Abs()), tag) == if fault.Some? then Failed(fault.value) else Parsed(Abs())
    {
      fault := None;
      if StartsWith(tag, "globa") {
        context := KbdDef;
      } else if StartsWith(tag, "layout") {
        if |layouts| == MAX_LAYOUTS { return Some(TooManyLayouts); }
        layouts := layouts + [[]];
      } else if StartsWith(tag, "row") {
        if |layouts| == 0 {
          layouts := [[]];
        }
        context := RowDef;
        var vbox := |layouts| - 1;
        tmpBox := Some((vbox, |layouts[vbox]|));
        layouts := layouts[vbox := layouts[vbox] + [[]]];
      } else if StartsWith(tag, "key") {
        if tmpBox.None? { return Some(NoRow); }
        AppendKey(NEW_KEY);
        context := InKey;
      }
    }

    method AppendKey(k: KeyDef)
      requires Abs().Valid() && tmpBox.Some?
      modifies this`layouts
      ensures Abs() == old(Abs()).WithRow(old(Abs()).Row() + [k])
    {
      var (l, i) := tmpBox.value;
      layouts := layouts[l := layouts[l][i := layouts[l][i] + [k]]];
    }

    // What the pointer to the last key is used for: replacing that key's fields.
    method UpdateKey(k: KeyDef)
      requires Abs().Valid() && context == InKey
      modifies this`layouts
      ensures Abs() == old(Abs()).WithRow(old(Abs()).Row()[|old(Abs()).Row()| - 1 := k])
    {
      var (l, i) := tmpBox.value;
      layouts := layouts[l := layouts[l][i := layouts[l][i][|layouts[l][i]| - 1 := k]]];
    }

    // The body of the loop over the lines.
    method ReadLine(line: string) returns (fault: Option<Fault>)
      requires Abs().Valid()
      modifies this
      ensures Step(env, old(Abs()), line) == if fault.Some? then Failed(fault.value) else Parsed(Abs())
    {
      fault := None;
      var tp := SkipBlanks(line);
      if tp != [] && (tp[0] == '\n' || tp[0] == '#') { return; }
      if tp != [] && tp[0] == '<' {
        if |tp| > 1 && tp[1] == '/' {
          if context == InKey {
            var row := layouts[tmpBox.value.0][tmpBox.value.1];
            UpdateKey(Measured(env, row[|row| - 1]));
          }
          context := NoContext;
          return;
        }
        var tag := Word(tp[1..]);
        if tag.None? { return Some(BadTag); }
        fault := OpenTag(tag.value.0);
      } else {
        var name := Word(tp);
        if name.None? { return Some(BadSetting); }
        var value := Word(name.value.1);
        if value.None? { return Some(BadSetting); }
        if context == KbdDef {
          globals := OnGlobal(globals, name.value.0, value.value.0);
        } else if context == InKey {
          var row := layouts[tmpBox.value.0][tmpBox.value.1];
          var k := Setting(env, row[|row| - 1], name.value.0, value.value.0);
          if k.None? { return Some(BadCapslock); }
          UpdateKey(k.value);
        }
      }
    }

    // The loop, and the first use of its result.
    method ReadFile(lines: seq<string>) returns (fault: Option<Fault>)
      requires Abs() == FRESH
      modifies this
      ensures Parse(env, lines) == if fault.Some? then Failed(fault.value) else Parsed(Abs())
    {
      var n := 0;
      while n < |lines|
        invariant 0 <= n <= |lines| && Abs().Valid()
        invariant Run(env, Abs(), lines[n..]) == Run(env, FRESH, lines)
      {
        assert lines[n..][0] == lines[n] && lines[n..][1..] == lines[n + 1..];
        fault := ReadLine(lines[n]);
        if fault.Some? { return; }
        n := n + 1;
      }
      fault := if layouts == [] then Some(NoLayout) else None;
    }
  }
}
