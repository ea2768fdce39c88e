// The press/release sequence that lookupKeyCodeSequence compiles a table entry to, and the
// X server that replays it. The server follows section 5 (Keyboards) of the X Window System
// Protocol with Lock off: Mode_switch selects the group, Shift the keysym within the group, and a
// group of a single keysym has its two cases.
module KeySequence {
  import opened Wrappers
  import opened Keymap

  type KeyCode = k: nat | k < 256

  datatype Direction = KeyDown | KeyUp | KeyDownUp

  datatype Entry = Entry(keycode: KeyCode, direction: Direction)

  datatype Stroke = Press(keycode: KeyCode) | Release(keycode: KeyCode)

  // ---------- the compiler ----------

  // The entries stored before the terminator; a column past the fourth stores none.
  function Sequence(column: nat, key: KeyCode, shift: KeyCode, mode: KeyCode): seq<Entry> {
    match column
    case 0 => [Entry(key, KeyDownUp)]
    case 1 => [Entry(shift, KeyDown), Entry(key, KeyDownUp), Entry(shift, KeyUp)]
    case 2 => [Entry(mode, KeyDown), Entry(key, KeyDownUp), Entry(mode, KeyUp)]
    case 3 => [Entry(shift, KeyDown), Entry(mode, KeyDown), Entry(key, KeyDownUp),
               Entry(mode, KeyUp), Entry(shift, KeyUp)]
    case _ => []
  }

  // The strokes of one entry.
  function StrokesOf(e: Entry): seq<Stroke> {
    match e.direction
    case KeyDown => [Press(e.keycode)]
    case KeyUp => [Release(e.keycode)]
    case KeyDownUp => [Press(e.keycode), Release(e.keycode)]
  }

  // The strokes of a stored sequence: everything up to the first zero keycode.
  function Strokes(entries: seq<Entry>): seq<Stroke> {
    if entries == [] || entries[0].keycode == 0 then []
    else StrokesOf(entries[0]) + Strokes(entries[1..])
  }

  // ---------- the server ----------

  // What the server knows of the keyboard: the first keycode, the table, the two keys that select
  // the column, and the two cases of a keysym. A keysym that is not alphabetic is its own lower and
  // upper case. Lock is off.
  datatype Mapping = Mapping(minKeycode: nat, table: seq<KeySym>, shift: KeyCode, mode: KeyCode,
                             lower: KeySym -> KeySym, upper: KeySym -> KeySym) {
    // The keycodes X hands out are 8 to 255.
    predicate Legal() {
      8 <= minKeycode && |table| % 4 == 0 && minKeycode + |table| / 4 <= 256
    }

    function KeyOf(i: nat): KeyCode
      requires Legal() && i < |table|
    {
      minKeycode + i / 4
    }

    function At(keycode: KeyCode, column: nat): KeySym
      requires column < 4
    {
      if minKeycode <= keycode && 4 * (keycode - minKeycode) + column < |table|
      then table[4 * (keycode - minKeycode) + column]
      else NO_SYMBOL
    }

    // A list of one or two keysyms stands for both groups.
    function Group(keycode: KeyCode, second: bool): (KeySym, KeySym) {
      if second && (At(keycode, 2) != NO_SYMBOL || At(keycode, 3) != NO_SYMBOL)
      then (At(keycode, 2), At(keycode, 3))
      else (At(keycode, 0), At(keycode, 1))
    }

    // A group without a second keysym has the two cases of its first one.
    function Cased(group: (KeySym, KeySym)): (KeySym, KeySym) {
      if group.1 == NO_SYMBOL then (lower(group.0), upper(group.0)) else group
    }

    // The keysym a press of the keycode produces while the keys in down are held.
    function Resolve(keycode: KeyCode, down: set<KeyCode>): KeySym {
      var group := Cased(Group(keycode, mode in down));
      if shift in down then group.1 else group.0
    }
  }

  // The held keys, the keysyms produced so far, and whether every press was of a key that exists
  // and was up and every release of a key that was down.
  datatype Server = Server(down: set<KeyCode>, log: seq<KeySym>, clean: bool)

  function Step(m: Mapping, s: Server, stroke: Stroke): Server {
    match stroke
    case Press(k) =>
      if k == 0 || k in s.down then s.(clean := false)
      else Server(s.down + {k}, s.log + [m.Resolve(k, s.down)], s.clean)
    case Release(k) =>
      if k in s.down then s.(down := s.down - {k}) else s.(clean := false)
  }

  function Replay(m: Mapping, s: Server, strokes: seq<Stroke>): Server
    decreases |strokes|
  {
    if strokes == [] then s else Replay(m, Step(m, s, strokes[0]), strokes[1..])
  }

  // The keysyms that pressing these keys one after the other produces.
  function Sounds(m: Mapping, down: set<KeyCode>, keys: seq<KeyCode>): (keysyms: seq<KeySym>)
    ensures |keysyms| == |keys|
    decreases |keys|
  {
    if keys == [] then [] else [m.Resolve(keys[0], down)] + Sounds(m, down + {keys[0]}, keys[1..])
  }

  // ---------- when a compiled sequence can work ----------

  // The modifier keys that a column needs, in the order in which they go down.
  function Uses(m: Mapping, column: nat): seq<KeyCode> {
    match column
    case 1 => [m.shift]
    case 2 => [m.mode]
    case 3 => [m.shift, m.mode]
    case _ => []
  }

  // The column that the held keys select.
  function ColumnUnder(m: Mapping, keys: seq<KeyCode>): nat {
    (if m.mode in keys then 2 else 0) + (if m.shift in keys then 1 else 0)
  }

  // What must stand in the four entries of a key for the column to show the keysym: the entry
  // itself, one of the cases of its left neighbour if it has no right one, or the first group if
  // the second is empty.
  predicate Shows(m: Mapping, key: KeyCode, column: nat, ks: KeySym)
    requires column < 4
  {
    var (e0, e1, e2, e3) := (m.At(key, 0), m.At(key, 1), m.At(key, 2), m.At(key, 3));
    match column
    case 0 => if e1 != NO_SYMBOL then e0 == ks else m.lower(e0) == ks
    case 1 => if e1 != NO_SYMBOL then e1 == ks else m.upper(e0) == ks
    case 2 =>
      if e3 != NO_SYMBOL then e2 == ks
      else if e2 != NO_SYMBOL then m.lower(e2) == ks
      else if e1 != NO_SYMBOL then e0 == ks
      else m.lower(e0) == ks
    case 3 =>
      if e3 != NO_SYMBOL then e3 == ks
      else if e2 != NO_SYMBOL then m.upper(e2) == ks
      else if e1 != NO_SYMBOL then e1 == ks
      else m.upper(e0) == ks
  }

  predicate Distinct(keys: seq<KeyCode>) {
    forall i, j | 0 <= i < j < |keys| :: keys[i] != keys[j]
  }

  // The column of entry i can be selected for its key while some keys are held around it: all keys
  // involved exist and differ from each other, and the column that all of them together select
  // shows the keysym of the entry.
  predicate Selectable(m: Mapping, i: nat, held: seq<KeyCode>)
    requires m.Legal() && i < |m.table|
  {
    var pressed := held + Uses(m, i % 4);
    && Distinct(pressed + [m.KeyOf(i)]) && 0 !in pressed
    && Shows(m, m.KeyOf(i), ColumnUnder(m, pressed), m.table[i])
  }

  function Compiled(m: Mapping, i: nat): seq<Stroke>
    requires m.Legal() && i < |m.table|
  {
    Strokes(Sequence(i % 4, m.KeyOf(i), m.shift, m.mode))
  }

  // ---------- lemmas ----------

  lemma {:induction false} ReplayAppend(m: Mapping, s: Server, a: seq<Stroke>, b: seq<Stroke>)
    ensures Replay(m, s, a + b) == Replay(m, Replay(m, s, a), b)
    decreases |a|
  {
    if a == [] {
      assert a + b == b;
    } else {
      assert (a + b)[0] == a[0] && (a + b)[1..] == a[1..] + b;
      ReplayAppend(m, Step(m, s, a[0]), a[1..], b);
    }
  }

  // Once a stroke was out of order the replay never counts as clean again.
  lemma {:induction false} UncleanStays(m: Mapping, s: Server, strokes: seq<Stroke>)
    requires !s.clean
    ensures !Replay(m, s, strokes).clean
    decreases |strokes|
  {
    if strokes != [] {
      UncleanStays(m, Step(m, s, strokes[0]), strokes[1..]);
    }
  }

  // Whatever follows the terminator in the entry array is never sent.
  lemma {:induction false} TerminatorStops(entries: seq<Entry>, rest: seq<Entry>)
    requires rest != [] && rest[0].keycode == 0
    ensures Strokes(entries + rest) == Strokes(entries)
  {
    if entries == [] {
      assert entries + rest == rest;
    } else {
      assert (entries + rest)[0] == entries[0] && (entries + rest)[1..] == entries[1..] + rest;
      TerminatorStops(entries[1..], rest);
    }
  }

  // The strokes of a compiled sequence, spelled out.
  lemma {:induction false} SequenceStrokes(column: nat, key: KeyCode, shift: KeyCode, mode: KeyCode)
    requires column < 4 && key != 0
    ensures var strokes := Strokes(Sequence(column, key, shift, mode));
            && (column == 0 ==> strokes == [Press(key), Release(key)])
            && (column == 1 && shift == 0 ==> strokes == [])
            && (column == 1 && shift != 0 ==>
                  strokes == [Press(shift), Press(key), Release(key), Release(shift)])
            && (column == 2 && mode == 0 ==> strokes == [])
            && (column == 2 && mode != 0 ==>
                  strokes == [Press(mode), Press(key), Release(key), Release(mode)])
            && (column == 3 && shift == 0 ==> strokes == [])
            && (column == 3 && shift != 0 && mode == 0 ==> strokes == [Press(shift)])
            && (column == 3 && shift != 0 && mode != 0 ==>
                  strokes == [Press(shift), Press(mode), Press(key), Release(key), Release(mode), Release(shift)])
  {
    var s := Sequence(column, key, shift, mode);
    match column {
      case 0 =>
        StrokesCons(s);
      case 3 =>
        StrokesCons(s); StrokesCons(s[1..]); StrokesCons(s[2..]); StrokesCons(s[3..]); StrokesCons(s[4..]);
      case _ =>
        StrokesCons(s); StrokesCons(s[1..]); StrokesCons(s[2..]);
    }
  }

  lemma {:induction false} StrokesCons(s: seq<Entry>)
    requires s != []
    ensures Strokes(s) == if s[0].keycode == 0 then [] else StrokesOf(s[0]) + Strokes(s[1..])
    ensures |s| > 1 ==> s[1..][1..] == s[2..] && s[1..][0] == s[1]
    ensures |s| == 1 ==> Strokes(s[1..]) == []
  {
  }

  // The entries tell what a key produces.
  lemma {:induction false} ResolveShows(m: Mapping, key: KeyCode, keys: seq<KeyCode>, down: set<KeyCode>, ks: KeySym)
    requires m.shift in down <==> m.shift in keys
    requires m.mode in down <==> m.mode in keys
    ensures m.Resolve(key, down) == ks <==> Shows(m, key, ColumnUnder(m, keys), ks)
  {
  }

  lemma {:induction false} OwnEntry(m: Mapping, i: nat)
    requires m.Legal() && i < |m.table|
    ensures m.At(m.KeyOf(i), i % 4) == m.table[i]
    ensures i % 2 == 0 ==> i + 1 < |m.table| && m.At(m.KeyOf(i), i % 4 + 1) == m.table[i + 1]
  {
    assert 4 * (m.KeyOf(i) - m.minKeycode) + i % 4 == i;
  }

  // A keysym that was looked up is what its key produces once its column is selected, except for
  // an upper-case keysym without a right neighbour, which its key produces in lower case.
  lemma {:induction false} SlotResolves(m: Mapping, ks: KeySym, i: nat, down: set<KeyCode>)
    requires m.Legal() && ks != NO_SYMBOL && Find(m.table, ks) == Some(i)
    requires i % 2 == 1 <==> m.shift in down
    requires i % 4 >= 2 <==> m.mode in down
    ensures m.Resolve(m.KeyOf(i), down) == ks <==> i % 2 == 1 || m.table[i + 1] != NO_SYMBOL || m.lower(ks) == ks
  {
    OwnEntry(m, i);
  }

  // ---------- keys going down and up ----------

  function Presses(keys: seq<KeyCode>): (strokes: seq<Stroke>)
    ensures |strokes| == |keys|
  {
    if keys == [] then [] else [Press(keys[0])] + Presses(keys[1..])
  }

  function Releases(keys: seq<KeyCode>): (strokes: seq<Stroke>)
    ensures |strokes| == |keys|
  {
    if keys == [] then [] else [Release(keys[0])] + Releases(keys[1..])
  }

  lemma {:induction false} PressesJoin(a: seq<KeyCode>, b: seq<KeyCode>)
    ensures Presses(a + b) == Presses(a) + Presses(b)
    decreases |a|
  {
    if a == [] {
      assert a + b == b;
    } else {
      assert (a + b)[0] == a[0] && (a + b)[1..] == a[1..] + b;
      PressesJoin(a[1..], b);
    }
  }

  lemma {:induction false} ReleasesJoin(a: seq<KeyCode>, b: seq<KeyCode>)
    ensures Releases(a + b) == Releases(a) + Releases(b)
    decreases |a|
  {
    if a == [] {
      assert a + b == b;
    } else {
      assert (a + b)[0] == a[0] && (a + b)[1..] == a[1..] + b;
      ReleasesJoin(a[1..], b);
    }
  }

  function KeySet(keys: seq<KeyCode>): set<KeyCode> {
    set k | k in keys
  }

  // Keys that can all be pressed.
  predicate CanPress(down: set<KeyCode>, keys: seq<KeyCode>) {
    Distinct(keys) && 0 !in keys && KeySet(keys) !! down
  }

  // The first of some keys, and the others.
  lemma {:induction false} FirstKey(down: set<KeyCode>, keys: seq<KeyCode>)
    requires keys != []
    ensures CanPress(down, keys) <==> keys[0] != 0 && keys[0] !in down && CanPress(down + {keys[0]}, keys[1..])
    ensures KeySet(keys) == {keys[0]} + KeySet(keys[1..])
    ensures Distinct(keys) ==> Distinct(keys[1..]) && keys[0] !in KeySet(keys[1..])
  {
    assert keys == [keys[0]] + keys[1..];
    var k, rest := keys[0], keys[1..];
    if k != 0 && k !in down && CanPress(down + {k}, rest) {
      assert k !in KeySet(rest);
      forall i, j | 0 <= i < j < |keys| ensures keys[i] != keys[j] {
        assert keys[j] == rest[j - 1] && (i > 0 ==> keys[i] == rest[i - 1]);
      }
    }
  }

  // Pressing keys is clean exactly if they exist, are up and differ, and then they are held.
  lemma {:induction false} PressesHold(m: Mapping, s: Server, keys: seq<KeyCode>)
    ensures var end := Replay(m, s, Presses(keys));
            if CanPress(s.down, keys) then end == Server(s.down + KeySet(keys), s.log + Sounds(m, s.down, keys), s.clean)
            else !end.clean
    decreases |keys|
  {
    if keys == [] {
      assert s.log + Sounds(m, s.down, keys) == s.log;
      assert s.down + KeySet(keys) == s.down;
    } else {
      FirstKey(s.down, keys);
      var next := Step(m, s, Press(keys[0]));
      assert Presses(keys)[0] == Press(keys[0]) && Presses(keys)[1..] == Presses(keys[1..]);
      if next.clean || CanPress(s.down, keys) {
        PressesHold(m, next, keys[1..]);
        Regrouped(s.log, [m.Resolve(keys[0], s.down)], Sounds(m, next.down, keys[1..]));
        assert s.down + {keys[0]} + KeySet(keys[1..]) == s.down + ({keys[0]} + KeySet(keys[1..]));
      } else {
        UncleanStays(m, next, Presses(keys[1..]));
      }
    }
  }

  // Releasing held keys frees exactly them.
  lemma {:induction false} ReleasesFree(m: Mapping, s: Server, keys: seq<KeyCode>)
    requires Distinct(keys) && KeySet(keys) <= s.down
    ensures Replay(m, s, Releases(keys)) == s.(down := s.down - KeySet(keys))
    decreases |keys|
  {
    if keys == [] {
      assert s.down - KeySet(keys) == s.down;
    } else {
      FirstKey({}, keys);
      assert keys[0] in KeySet(keys);
      var next := Step(m, s, Release(keys[0]));
      assert Releases(keys)[0] == Release(keys[0]) && Releases(keys)[1..] == Releases(keys[1..]);
      ReleasesFree(m, next, keys[1..]);
      assert next.down - KeySet(keys[1..]) == s.down - KeySet(keys);
    }
  }

  // ---------- the compiler is correct ----------

  // The modifier keys of a column in the order in which they come up.
  function Frees(m: Mapping, column: nat): seq<KeyCode> {
    match column
    case 1 => [m.shift]
    case 2 => [m.mode]
    case 3 => [m.mode, m.shift]
    case _ => []
  }

  // What a compiled sequence does: the modifier keys of its column go down, the key is clicked, and
  // they come up. A modifier key that does not exist cuts it short.
  lemma {:induction false} CompiledIsWrapped(m: Mapping, i: nat)
    requires m.Legal() && i < |m.table|
    ensures var (uses, frees, key) := (Uses(m, i % 4), Frees(m, i % 4), m.KeyOf(i));
            && KeySet(frees) == KeySet(uses) && |frees| == |uses|
            && (if 0 !in uses then Compiled(m, i) == Presses(uses + [key]) + Releases([key] + frees)
                else Compiled(m, i) == Presses(if i % 4 == 3 && m.shift != 0 then [m.shift] else []))
  {
    var (uses, frees, key) := (Uses(m, i % 4), Frees(m, i % 4), m.KeyOf(i));
    SequenceStrokes(i % 4, key, m.shift, m.mode);
    SpellStrokes(uses + [key], [key] + frees);
    SpellStrokes([m.shift], []);
  }

  lemma {:induction false} SpellStrokes(down: seq<KeyCode>, up: seq<KeyCode>)
    ensures forall i | 0 <= i < |down| :: Presses(down)[i] == Press(down[i])
    ensures forall i | 0 <= i < |up| :: Releases(up)[i] == Release(up[i])
    decreases |down| + |up|
  {
    if down != [] {
      SpellStrokes(down[1..], up);
    } else if up != [] {
      SpellStrokes(down, up[1..]);
    }
  }

  lemma {:induction false} SoundsAtEnd(m: Mapping, down: set<KeyCode>, keys: seq<KeyCode>, k: KeyCode)
    ensures Sounds(m, down, keys + [k]) == Sounds(m, down, keys) + [m.Resolve(k, down + KeySet(keys))]
    decreases |keys|
  {
    if keys == [] {
      assert keys + [k] == [k] && [k][1..] == [] && down + KeySet(keys) == down;
    } else {
      FirstKey({}, keys);
      assert (keys + [k])[0] == keys[0] && (keys + [k])[1..] == keys[1..] + [k];
      SoundsAtEnd(m, down + {keys[0]}, keys[1..], k);
      assert down + {keys[0]} + KeySet(keys[1..]) == down + KeySet(keys);
    }
  }

  // A log grows by at most one keysym a press, and not by releases.
  lemma {:induction false} LogGrows(m: Mapping, s: Server, down: seq<KeyCode>, up: seq<KeyCode>)
    ensures |Replay(m, s, Presses(down)).log| <= |s.log| + |down|
    ensures Replay(m, s, Releases(up)).log == s.log
    decreases |down| + |up|
  {
    if down != [] {
      assert Presses(down)[0] == Press(down[0]) && Presses(down)[1..] == Presses(down[1..]);
      LogGrows(m, Step(m, s, Press(down[0])), down[1..], []);
      LogGrows(m, s, [], up);
    } else if up != [] {
      assert Releases(up)[0] == Release(up[0]) && Releases(up)[1..] == Releases(up[1..]);
      LogGrows(m, Step(m, s, Release(up[0])), [], up[1..]);
    }
  }

  // Presses of some keys and of one more, and then releases of all of them in any order.
  lemma {:induction false} DownAndUp(m: Mapping, s: Server, keys: seq<KeyCode>, key: KeyCode, up: seq<KeyCode>)
    requires s.clean && KeySet(up) == KeySet(keys + [key]) && |up| == |keys| + 1
    requires Distinct(keys + [key]) ==> Distinct(up)
    ensures var end := Replay(m, s, Presses(keys + [key]) + Releases(up));
            if CanPress(s.down, keys + [key])
            then end == s.(log := s.log + Sounds(m, s.down, keys) + [m.Resolve(key, s.down + KeySet(keys))])
            else !end.clean
  {
    var all := keys + [key];
    PressesHold(m, s, all);
    ReplayAppend(m, s, Presses(all), Releases(up));
    var held := Replay(m, s, Presses(all));
    if CanPress(s.down, all) {
      ReleasesFree(m, held, up);
      SoundsAtEnd(m, s.down, keys, key);
      assert s.down + KeySet(all) - KeySet(up) == s.down;
      Regrouped(s.log, Sounds(m, s.down, keys), [m.Resolve(key, s.down + KeySet(keys))]);
    } else {
      UncleanStays(m, held, Releases(up));
    }
  }

  lemma {:induction false} ReplayThree(m: Mapping, s: Server, a: seq<Stroke>, b: seq<Stroke>, c: seq<Stroke>)
    ensures Replay(m, s, a + b + c) == Replay(m, Replay(m, Replay(m, s, a), b), c)
  {
    ReplayAppend(m, s, a, b);
    ReplayAppend(m, s, a + b, c);
  }

  // The strokes of a sequence with keys held around it.
  function Around(m: Mapping, i: nat, held: seq<KeyCode>): seq<Stroke>
    requires m.Legal() && i < |m.table|
  {
    Presses(held) + Compiled(m, i) + Releases(held)
  }

  // If all modifier keys exist, keys held around a sequence and the keys within it go down one
  // after the other, and come up again.
  lemma {:induction false} AroundIsDownAndUp(m: Mapping, i: nat, held: seq<KeyCode>)
    requires m.Legal() && i < |m.table| && 0 !in Uses(m, i % 4)
    ensures Around(m, i, held) ==
      Presses(held + Uses(m, i % 4) + [m.KeyOf(i)]) + Releases([m.KeyOf(i)] + Frees(m, i % 4) + held)
  {
    var (uses, frees, key) := (Uses(m, i % 4), Frees(m, i % 4), m.KeyOf(i));
    CompiledIsWrapped(m, i);
    PressesJoin(held, uses + [key]);
    ReleasesJoin([key] + frees, held);
    Regrouped(held, uses, [key]);
    var (a, b, c, d) := (Presses(held), Presses(uses + [key]), Releases([key] + frees), Releases(held));
    Regrouped(a, b, c);
    Regrouped(a + b, c, d);
  }

  lemma {:induction false} UpAgain(m: Mapping, i: nat, held: seq<KeyCode>)
    requires m.Legal() && i < |m.table|
    ensures var (down, up) := (held + Uses(m, i % 4) + [m.KeyOf(i)], [m.KeyOf(i)] + Frees(m, i % 4) + held);
            KeySet(up) == KeySet(down) && |up| == |down| && (Distinct(down) <==> Distinct(up))
  {
    var (uses, frees, key) := (Uses(m, i % 4), Frees(m, i % 4), m.KeyOf(i));
    var (down, up) := (held + uses + [key], [key] + frees + held);
    CompiledIsWrapped(m, i);
    assert forall k :: k in down <==> k in held || k in KeySet(uses) || k == key;
    assert forall k :: k in up <==> k in held || k in KeySet(frees) || k == key;
    DistinctIsSize(down);
    DistinctIsSize(up);
  }

  lemma {:induction false} DistinctIsSize(keys: seq<KeyCode>)
    ensures |KeySet(keys)| <= |keys|
    ensures Distinct(keys) <==> |KeySet(keys)| == |keys|
  {
    if keys != [] {
      FirstKey({}, keys);
      DistinctIsSize(keys[1..]);
      if keys[0] in KeySet(keys[1..]) {
        assert KeySet(keys) == KeySet(keys[1..]);
        var j :| 0 <= j < |keys[1..]| && keys[1..][j] == keys[0];
        assert keys[0] == keys[j + 1];
      } else {
        assert |KeySet(keys)| == 1 + |KeySet(keys[1..])|;
        if Distinct(keys[1..]) {
          forall i, j | 0 <= i < j < |keys| ensures keys[i] != keys[j] {
            assert keys[j] == keys[1..][j - 1] && (i > 0 ==> keys[i] == keys[1..][i - 1]);
          }
        }
      }
    }
  }

  // Compiler correctness, with any keys held around the sequence. For every table and every keysym
  // found in it, from a state in which the keys involved are up: the replay produces the keysyms of
  // the modifier keys and then exactly the one looked up, leaves exactly the keys down that were
  // down before, and never presses a key that is down or missing, if and only if the entry is
  // selectable under the keys held.
  lemma {:induction false} HeldSequenceCorrect(m: Mapping, ks: KeySym, i: nat, s: Server, held: seq<KeyCode>)
    requires m.Legal() && ks != NO_SYMBOL && Find(m.table, ks) == Some(i) && s.clean
    requires m.shift !in s.down && m.mode !in s.down && m.KeyOf(i) !in s.down && KeySet(held) !! s.down
    ensures Replay(m, s, Around(m, i, held)) == s.(log := s.log + Sounds(m, s.down, held + Uses(m, i % 4)) + [ks])
            <==> Selectable(m, i, held)
  {
    var (uses, key) := (Uses(m, i % 4), m.KeyOf(i));
    var pressed := held + uses;
    if 0 in uses {
      CutShortFails(m, i, s, held);
    } else {
      AroundIsDownAndUp(m, i, held);
      UpAgain(m, i, held);
      DownAndUp(m, s, pressed, key, [key] + Frees(m, i % 4) + held);
      OnlyTheseKeys(m, i, s, held);
      ResolveShows(m, key, pressed, s.down + KeySet(pressed), ks);
      var (before, made) := (s.log + Sounds(m, s.down, pressed), m.Resolve(key, s.down + KeySet(pressed)));
      assert before + [made] == before + [ks] <==> made == ks by {
        assert (before + [made])[|before|] == made && (before + [ks])[|before|] == ks;
      }
    }
  }

  lemma {:induction false} OnlyTheseKeys(m: Mapping, i: nat, s: Server, held: seq<KeyCode>)
    requires m.Legal() && i < |m.table|
    requires m.shift !in s.down && m.mode !in s.down && m.KeyOf(i) !in s.down && KeySet(held) !! s.down
    ensures var pressed := held + Uses(m, i % 4);
            && (CanPress(s.down, pressed + [m.KeyOf(i)]) <==> Distinct(pressed + [m.KeyOf(i)]) && 0 !in pressed)
            && (m.shift in s.down + KeySet(pressed) <==> m.shift in pressed)
            && (m.mode in s.down + KeySet(pressed) <==> m.mode in pressed)
  {
    var all := held + Uses(m, i % 4) + [m.KeyOf(i)];
    forall k | k in all ensures k !in s.down {
      if k in held { assert k in KeySet(held); }
    }
  }

  // Without its modifier keys a sequence makes too few keysyms.
  lemma {:induction false} CutShortFails(m: Mapping, i: nat, s: Server, held: seq<KeyCode>)
    requires m.Legal() && i < |m.table| && 0 in Uses(m, i % 4)
    ensures |Replay(m, s, Around(m, i, held)).log| < |s.log| + |held| + |Uses(m, i % 4)| + 1
  {
    CompiledIsWrapped(m, i);
    var short := if i % 4 == 3 && m.shift != 0 then [m.shift] else [];
    ReplayThree(m, s, Presses(held), Presses(short), Releases(held));
    var afterHeld := Replay(m, s, Presses(held));
    LogGrows(m, s, held, []);
    LogGrows(m, afterHeld, short, []);
    LogGrows(m, Replay(m, afterHeld, Presses(short)), [], held);
  }

  // The same without keys held around the sequence.
  lemma {:induction false} CompilerCorrect(m: Mapping, ks: KeySym, i: nat, s: Server)
    requires m.Legal() && ks != NO_SYMBOL && Find(m.table, ks) == Some(i) && s.clean
    requires m.shift !in s.down && m.mode !in s.down && m.KeyOf(i) !in s.down
    ensures Replay(m, s, Compiled(m, i)) == s.(log := s.log + Sounds(m, s.down, Uses(m, i % 4)) + [ks])
            <==> Selectable(m, i, [])
  {
    HeldSequenceCorrect(m, ks, i, s, []);
    assert Around(m, i, []) == Compiled(m, i) && [] + Uses(m, i % 4) == Uses(m, i % 4);
  }

  // ---------- the condition, spelled out ----------

  lemma {:induction false} DistinctJoin(a: seq<KeyCode>, b: seq<KeyCode>)
    ensures KeySet(a + b) == KeySet(a) + KeySet(b)
    ensures Distinct(a + b) <==> Distinct(a) && Distinct(b) && KeySet(a) !! KeySet(b)
  {
    DistinctIsSize(a);
    DistinctIsSize(b);
    DistinctIsSize(a + b);
    var common := KeySet(a) * KeySet(b);
    assert |KeySet(a) + KeySet(b)| == |KeySet(a)| + |KeySet(b)| - |common|;
    if common == {} {
      forall k | k in KeySet(a) ensures k !in KeySet(b) {
        assert k !in common;
      }
    } else {
      var k :| k in common;
      assert |common| >= 1 && k in KeySet(a) && k in KeySet(b);
    }
  }

  lemma {:induction false} UsesAre(m: Mapping, column: nat)
    requires column < 4
    ensures KeySet(Uses(m, column)) == (if column % 2 == 1 then {m.shift} else {}) + (if column >= 2 then {m.mode} else {})
    ensures Distinct(Uses(m, column)) <==> column != 3 || m.shift != m.mode
  {
    if column == 3 {
      assert Uses(m, 3)[0] == m.shift && Uses(m, 3)[1] == m.mode;
    }
  }

  // A key that can be held around the sequence of entry i: it exists and the sequence does not use it.
  predicate Unused(m: Mapping, i: nat, k: KeyCode)
    requires m.Legal() && i < |m.table|
  {
    k != 0 && k != m.KeyOf(i) && (i % 2 == 1 ==> k != m.shift) && (i % 4 >= 2 ==> k != m.mode)
  }

  // The sequence's own keys exist and are different, and all keys together select a column that
  // shows the keysym.
  predicate Reaches(m: Mapping, i: nat, held: seq<KeyCode>)
    requires m.Legal() && i < |m.table|
  {
    && (i % 2 == 1 ==> m.shift != 0 && m.shift != m.KeyOf(i))
    && (i % 4 >= 2 ==> m.mode != 0 && m.mode != m.KeyOf(i))
    && (i % 4 == 3 ==> m.shift != m.mode)
    && Shows(m, m.KeyOf(i), ColumnUnder(m, held + Uses(m, i % 4)), m.table[i])
  }

  lemma {:induction false} SelectableApart(m: Mapping, i: nat, held: seq<KeyCode>)
    requires m.Legal() && i < |m.table|
    ensures Selectable(m, i, held) <==> Distinct(held) && (forall k | k in held :: Unused(m, i, k)) && Reaches(m, i, held)
  {
    var (uses, key) := (Uses(m, i % 4), m.KeyOf(i));
    DistinctJoin(held, uses);
    DistinctJoin(held + uses, [key]);
    UsesAre(m, i % 4);
    assert KeySet([key]) == {key} && Distinct([key]);
    assert 0 in held + uses <==> 0 in KeySet(held + uses);
    assert forall k :: k in held <==> k in KeySet(held);
  }

  // Without held keys and with two different modifier keys the condition comes down to this: the
  // modifier keys that the column needs exist and are not the key itself, and a keysym without a
  // right neighbour is in lower case, or has no case.
  lemma {:induction false} SelectablePlainly(m: Mapping, i: nat)
    requires m.Legal() && i < |m.table| && m.shift != m.mode && m.table[i] != NO_SYMBOL
    ensures Selectable(m, i, []) <==>
      && (i % 2 == 1 ==> m.shift != 0 && m.shift != m.KeyOf(i))
      && (i % 4 >= 2 ==> m.mode != 0 && m.mode != m.KeyOf(i))
      && (i % 2 == 0 && m.table[i + 1] == NO_SYMBOL ==> m.lower(m.table[i]) == m.table[i])
  {
    OwnEntry(m, i);
    SelectableApart(m, i, []);
    assert ColumnUnder(m, [] + Uses(m, i % 4)) == i % 4;
  }

  // Held keys that are keys of their own, neither shared with one another nor with the sequence,
  // change nothing.
  lemma {:induction false} OwnKeysAreTransparent(m: Mapping, i: nat, held: seq<KeyCode>)
    requires m.Legal() && i < |m.table|
    requires Distinct(held) && 0 !in held && m.shift !in held && m.mode !in held && m.KeyOf(i) !in held
    ensures Selectable(m, i, held) <==> Selectable(m, i, [])
  {
    SelectableApart(m, i, held);
    SelectableApart(m, i, []);
    assert ColumnUnder(m, held + Uses(m, i % 4)) == ColumnUnder(m, [] + Uses(m, i % 4));
  }

  // Holding the Shift key itself around a sequence: a sequence that presses Shift presses it twice
  // and fails; any other types its keysym exactly if the shifted column shows it too.
  lemma {:induction false} HeldShift(m: Mapping, i: nat)
    requires m.Legal() && i < |m.table| && m.shift != 0 && m.shift != m.mode && m.shift != m.KeyOf(i)
    ensures i % 2 == 1 ==> !Selectable(m, i, [m.shift])
    ensures i % 2 == 0 && (i % 4 == 2 ==> m.mode != 0 && m.mode != m.KeyOf(i)) ==>
      (Selectable(m, i, [m.shift]) <==> Shows(m, m.KeyOf(i), i % 4 + 1, m.table[i]))
  {
    SelectableApart(m, i, [m.shift]);
    if i % 2 == 0 {
      assert ColumnUnder(m, [m.shift] + Uses(m, i % 4)) == i % 4 + 1;
    }
  }

  // ---------- lookups, and the text an application sees ----------

  // The mapping the server has after a lookup, and after a run of lookups.
  function Mapped(m: Mapping, ks: KeySym): (m': Mapping)
    ensures m.Legal() ==> m'.Legal() && |m'.table| == |m.table|
  {
    m.(table := Place(m.table, ks, 4).table)
  }

  function MappedAll(m: Mapping, wanted: seq<KeySym>): (m': Mapping)
    ensures m.Legal() ==> m'.Legal() && |m'.table| == |m.table|
  {
    m.(table := PlaceAll(m.table, wanted, 4))
  }

  // A keysym that was placed, and that its sequence types, types itself after any later lookups
  // too: they neither move it nor take its column away.
  lemma {:induction false} StillTypes(m: Mapping, ks: KeySym, i: nat, wanted: seq<KeySym>, s: Server)
    requires m.Legal() && ks != NO_SYMBOL && Place(m.table, ks, 4).slot == Some(i) && Selectable(Mapped(m, ks), i, [])
    requires m.shift != m.mode || i % 4 == 0
    requires m.shift !in s.down && m.mode !in s.down && m.KeyOf(i) !in s.down && s.clean
    ensures var later := MappedAll(Mapped(m, ks), wanted);
            && later.Legal() && Find(later.table, ks) == Some(i)
            && Replay(later, s, Compiled(later, i))
               == s.(log := s.log + Sounds(later, s.down, Uses(later, i % 4)) + [ks])
  {
    StaysSelectable(m, ks, i, wanted);
    CompilerCorrect(MappedAll(Mapped(m, ks), wanted), ks, i, s);
  }

  lemma {:induction false} StaysSelectable(m: Mapping, ks: KeySym, i: nat, wanted: seq<KeySym>)
    requires m.Legal() && ks != NO_SYMBOL && Place(m.table, ks, 4).slot == Some(i) && Selectable(Mapped(m, ks), i, [])
    requires m.shift != m.mode || i % 4 == 0
    ensures var later := MappedAll(Mapped(m, ks), wanted);
            later.Legal() && Find(later.table, ks) == Some(i) && Selectable(later, i, [])
  {
    var now, later := Mapped(m, ks), MappedAll(Mapped(m, ks), wanted);
    PlaceKeepsEntries(m.table, ks, 4);
    AllocationIsStable(now.table, wanted, ks, 4);
    FoundAgain(later.table, ks);
    ColumnStays(now, later, i);
  }

  // The condition on the modifier keys is needed: with one key for both Shift and Mode_switch,
  // columns 1 and 2 depend on entries that later lookups fill.
  lemma {:induction false} SharedKeyIsFragile(m: Mapping, plain: KeySym, ks: KeySym, next: KeySym)
    requires m.minKeycode == 8 && m.table == [plain, ks, NO_SYMBOL, NO_SYMBOL] && m.shift == m.mode && m.shift > 8
    requires ks != NO_SYMBOL && next != NO_SYMBOL && plain != NO_SYMBOL && plain != ks && next != ks && next != plain
    requires !IsModifierKey(plain) && m.upper(next) != ks
    ensures m.Legal() && Selectable(m, 1, []) && !Selectable(MappedAll(m, [next]), 1, [])
  {
    assert Find(m.table, next).None?;
    assert Free(m.table, 2, 4) && !Free(m.table, 0, 4) && !Free(m.table, 1, 4);
    FreeIsFirst(m.table, 2, 4);
    var later := MappedAll(m, [next]);
    assert [next][1..] == [] && PlaceAll(m.table, [next], 4) == PlaceAll(Place(m.table, next, 4).table, [], 4);
    assert later.table == m.table[2 := next];
    assert [] + Uses(m, 1) == [m.shift] && [m.shift] + [m.KeyOf(1)] == [m.shift, m.KeyOf(1)];
    assert ColumnUnder(m, [m.shift]) == 3;
    assert later.At(8, 2) == next && later.At(8, 3) == NO_SYMBOL;
    assert m.At(8, 1) == ks && m.At(8, 2) == m.At(8, 3) == NO_SYMBOL;
  }

  lemma {:induction false} FoundAgain(table: seq<KeySym>, ks: KeySym)
    requires Place(table, ks, 4).table == table && Place(table, ks, 4).slot.Some? && ks != NO_SYMBOL
    ensures Find(table, ks) == Place(table, ks, 4).slot
  {
    PlaceKeepsEntries(table, ks, 4);
  }

  // Filling empty entries leaves a selectable entry selectable.
  lemma {:induction false} ColumnStays(m: Mapping, later: Mapping, i: nat)
    requires m.Legal() && later == m.(table := later.table) && |later.table| == |m.table| && i < |m.table|
    requires m.table[i] != NO_SYMBOL
    requires forall j | 0 <= j < |m.table| && m.table[j] != NO_SYMBOL :: later.table[j] == m.table[j]
    requires Selectable(m, i, []) && (m.shift != m.mode || i % 4 == 0)
    ensures later.Legal() && Selectable(later, i, [])
  {
    OwnEntry(m, i);
    OwnEntry(later, i);
    if m.shift != m.mode {
      SelectablePlainly(m, i);
      SelectablePlainly(later, i);
    } else {
      assert ColumnUnder(m, [] + Uses(m, 0)) == 0;
    }
  }

  // An upper-case keysym that stands in the first column without a right neighbour comes out in
  // lower case.
  lemma {:induction false} UpperCaseTypesLower(m: Mapping, ks: KeySym, i: nat, s: Server)
    requires m.Legal() && ks != NO_SYMBOL && Place(m.table, ks, 4).slot == Some(i) && i % 4 == 0
    requires Mapped(m, ks).table[i + 1] == NO_SYMBOL && m.lower(ks) != ks
    requires m.shift !in s.down && m.mode !in s.down && m.KeyOf(i) !in s.down && s.clean
    ensures var m' := Mapped(m, ks);
            !Selectable(m', i, []) && Replay(m', s, Compiled(m', i)) == s.(log := s.log + [m.lower(ks)])
  {
    var m' := Mapped(m, ks);
    PlaceKeepsEntries(m.table, ks, 4);
    OwnEntry(m', i);
    PlainClick(m', i, s);
    SelectableApart(m', i, []);
    assert ColumnUnder(m', [] + Uses(m', 0)) == 0;
  }

  // In the first column the key is clicked and nothing else.
  lemma {:induction false} PlainClick(m: Mapping, i: nat, s: Server)
    requires m.Legal() && i < |m.table| && i % 4 == 0 && m.KeyOf(i) !in s.down && s.clean
    ensures Replay(m, s, Compiled(m, i)) == s.(log := s.log + [m.Resolve(m.KeyOf(i), s.down)])
  {
    var key := m.KeyOf(i);
    SequenceStrokes(0, key, m.shift, m.mode);
    var click := [Press(key), Release(key)];
    var down := Step(m, s, Press(key));
    assert click[1..] == [Release(key)] && click[1..][1..] == [];
    assert Replay(m, down, click[1..]) == Step(m, down, Release(key));
    assert s.down + {key} - {key} == s.down;
  }

  function Text(log: seq<KeySym>): seq<KeySym> {
    if log == [] then []
    else (if IsModifierKey(log[0]) then [] else [log[0]]) + Text(log[1..])
  }

  lemma {:induction false} TextOfModifiers(log: seq<KeySym>, ks: KeySym)
    requires forall k | k in log :: IsModifierKey(k)
    requires !IsModifierKey(ks)
    ensures Text(log + [ks]) == [ks]
    decreases |log|
  {
    if log == [] {
      assert log + [ks] == [ks] && [ks][1..] == [];
    } else {
      assert log[0] in log;
      assert (log + [ks])[0] == log[0] && (log + [ks])[1..] == log[1..] + [ks];
      TextOfModifiers(log[1..], ks);
    }
  }

  // Looking a keysym up, claiming an entry for it if need be, and replaying the result, with or
  // without modifier keys held around it, types it once: the application sees the one keysym and
  // no other.
  lemma {:induction false} LookupThenReplayTypesOnce(m: Mapping, ks: KeySym, i: nat, down: set<KeyCode>,
          held: seq<KeyCode>)
    requires m.Legal() && ks != NO_SYMBOL && !IsModifierKey(ks)
    requires Place(m.table, ks, 4).slot == Some(i) && Selectable(Mapped(m, ks), i, held)
    requires m.shift !in down && m.mode !in down && m.KeyOf(i) !in down && KeySet(held) !! down
    requires forall k | k in Sounds(Mapped(m, ks), down, held + Uses(m, i % 4)) :: IsModifierKey(k)
    ensures var after := Replay(Mapped(m, ks), Server(down, [], true), Around(Mapped(m, ks), i, held));
            after.down == down && after.clean && Text(after.log) == [ks]
  {
    PlaceKeepsEntries(m.table, ks, 4);
    var m' := Mapped(m, ks);
    assert Uses(m', i % 4) == Uses(m, i % 4);
    HeldSequenceCorrect(m', ks, i, Server(down, [], true), held);
    var sounds := Sounds(m', down, held + Uses(m, i % 4));
    assert [] + sounds == sounds;
    TextOfModifiers(sounds, ks);
  }
}
