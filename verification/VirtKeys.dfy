// The state of libvirtkeys.c and the routines that change it: reading the modifier map, loading
// the keysym table, looking up and claiming entries, and sending key sequences. Each routine is
// proved against the functions of Keymap and KeySequence.
module VirtKeys {
  import opened Arithmetic
  import opened Wrappers
  import opened Keymap
  import opened KeySequence

  const SHIFT_MAP_INDEX := 0
  const CONTROL_MAP_INDEX := 2
  const MOD1_MAP_INDEX := 3
  const MOD5_MAP_INDEX := 7
  const NO_MODIFIER_MAP_INDEX := 8
  const NUM_MODIFIER_INDEXES := 9

  const XK_SHIFT_L: KeySym := 0xffe1
  const XK_SHIFT_R: KeySym := 0xffe2
  const XK_META_L: KeySym := 0xffe7
  const XK_META_R: KeySym := 0xffe8
  const XK_ALT_L: KeySym := 0xffe9
  const XK_ALT_R: KeySym := 0xffea
  const XK_MODE_SWITCH: KeySym := 0xff7e

  const METAS := {XK_META_R, XK_META_L}
  const ALTS := {XK_ALT_R, XK_ALT_L}
  const SHIFTS := {XK_SHIFT_R, XK_SHIFT_L}

  // The first keycode in use among those the server lists for one modifier, 0 if there is none.
  function FirstInUse(keycodes: seq<KeyCode>): (k: KeyCode)
    ensures k == 0 <==> forall i | 0 <= i < |keycodes| :: keycodes[i] == 0
    ensures k != 0 ==> exists i :: 0 <= i < |keycodes| && keycodes[i] == k && forall j | 0 <= j < i :: keycodes[j] == 0
  {
    if keycodes == [] then 0
    else if keycodes[0] != 0 then keycodes[0]
    else
      var later := FirstInUse(keycodes[1..]);
      assert later != 0 ==> exists i :: 0 < i < |keycodes| && keycodes[i] == later && forall j | 0 <= j < i :: keycodes[j] == 0 by {
        if later != 0 {
          var i :| 0 <= i < |keycodes[1..]| && keycodes[1..][i] == later && forall j | 0 <= j < i :: keycodes[1..][j] == 0;
          assert keycodes[i + 1] == later && forall j | 1 <= j < i + 1 :: keycodes[j] == keycodes[1..][j - 1];
        }
      }
      later
  }

  // A search result, given as a row and a column.
  predicate IsSlot(r: Option<nat>, row: int, column: int, w: Width) {
    0 <= column < w && 0 <= row && r.Some? && r.value == row * w + column
  }

  lemma {:induction false} SlotIs(row: nat, column: nat, w: Width)
    requires column < w
    ensures (row * w + column) / w == row && (row * w + column) % w == column
  {
    Divided(row * w + column, w, row, column);
  }

  // The keysyms of the three names, left and right.
  lemma {:induction false} NamesAre()
    ensures METAS == {0xffe7, 0xffe8} && ALTS == {0xffe9, 0xffea} && SHIFTS == {0xffe1, 0xffe2} && XK_MODE_SWITCH == 0xff7e
  {
  }

  // The last modifier from Mod1 to Mod5 whose key has one of these names, or the one from before.
  function LastNamed(table: seq<KeyCode>, unshifted: KeyCode -> KeySym, names: set<KeySym>, n: nat, before: nat): nat
    requires n <= |table|
  {
    if n <= MOD1_MAP_INDEX then before
    else if IsNamed(table, unshifted, names, n - 1) then n - 1
    else LastNamed(table, unshifted, names, n - 1, before)
  }

  lemma {:induction false} LastNamedIs(table: seq<KeyCode>, unshifted: KeyCode -> KeySym, names: set<KeySym>,
          n: nat, before: nat)
    requires n <= |table|
    ensures var last := LastNamed(table, unshifted, names, n, before);
            if exists i :: 3 <= i < n && IsNamed(table, unshifted, names, i) then
              && 3 <= last < n && IsNamed(table, unshifted, names, last)
              && forall i | last < i < n :: !IsNamed(table, unshifted, names, i)
            else last == before
  {
    if n > MOD1_MAP_INDEX && !IsNamed(table, unshifted, names, n - 1) {
      LastNamedIs(table, unshifted, names, n - 1, before);
    }
  }

  predicate IsNamed(table: seq<KeyCode>, unshifted: KeyCode -> KeySym, names: set<KeySym>, i: nat)
    requires i < |table|
  {
    table[i] != 0 && unshifted(table[i]) in names
  }

  function OneIf(wanted: bool, keycode: KeyCode): seq<KeyCode> {
    if wanted then [keycode] else []
  }

  lemma {:induction false} PressesOnto(start: seq<Stroke>, a: seq<KeyCode>, b: seq<KeyCode>)
    ensures start + Presses(a) + Presses(b) == start + Presses(a + b)
  {
    PressesJoin(a, b);
    assert start + Presses(a) + Presses(b) == start + (Presses(a) + Presses(b));
  }

  lemma {:induction false} ReleasesOnto(start: seq<Stroke>, a: seq<KeyCode>, b: seq<KeyCode>)
    ensures start + Releases(a) + Releases(b) == start + Releases(a + b)
  {
    ReleasesJoin(a, b);
    assert start + Releases(a) + Releases(b) == start + (Releases(a) + Releases(b));
  }

  // The strokes of the first n entries.
  function Sent(all: seq<Entry>, n: nat): seq<Stroke>
    requires n <= |all|
  {
    if n == 0 then [] else Sent(all, n - 1) + StrokesOf(all[n - 1])
  }

  lemma {:induction false} SentThenRest(all: seq<Entry>, n: nat)
    requires n <= |all| && forall j | 0 <= j < n :: all[j].keycode != 0
    ensures Strokes(all) == Sent(all, n) + Strokes(all[n..])
  {
    if n == 0 {
      assert all[0..] == all;
    } else {
      SentThenRest(all, n - 1);
      assert all[n - 1..][0] == all[n - 1] && all[n - 1..][1..] == all[n..];
      Regrouped(Sent(all, n - 1), StrokesOf(all[n - 1]), Strokes(all[n..]));
    }
  }

  // Up to the first zero keycode.
  lemma {:induction false} SentIsAll(all: seq<Entry>, n: nat)
    requires n < |all| && all[n].keycode == 0 && forall j | 0 <= j < n :: all[j].keycode != 0
    ensures Strokes(all) == Sent(all, n)
  {
    SentThenRest(all, n);
    assert all[n..][0] == all[n];
  }

  // A table that starts with a compiled sequence and its terminator sends that sequence.
  lemma {:induction false} StoredIsCompiled(m: Mapping, i: nat, table: seq<Entry>)
    requires m.Legal() && i < |m.table|
    requires var entries := Sequence(i % 4, m.KeyOf(i), m.shift, m.mode);
             |entries| < |table| && table[..|entries|] == entries && table[|entries|].keycode == 0
    ensures Strokes(table) == Compiled(m, i)
  {
    var entries := Sequence(i % 4, m.KeyOf(i), m.shift, m.mode);
    assert table == entries + table[|entries|..];
    TerminatorStops(entries, table[|entries|..]);
  }

  // What the search knows after the first n entries of the table.
  predicate Scanned(table: seq<KeySym>, w: Width, ks: KeySym, n: nat, found: bool, assignedKeycode: int,
                    assignedColumn: int, availableKeycode: int, availableColumn: int)
  {
    && (if found then IsSlot(Find(table, ks), assignedKeycode, assignedColumn, w)
        else n <= |table| && forall i | 0 <= i < n :: table[i] != ks)
    && (if availableColumn == -1 then !found ==> n <= |table| && forall i | 0 <= i < n :: !Free(table, i, w)
        else IsSlot(FirstFree(table, w), availableKeycode, availableColumn, w))
  }

  // ---------- the modifier keys held around a sequence ----------

  // The keys that sendKeySequence holds, in the order of its tests: the modifier table's entries for
  // Control and at the three indices.
  function HeldKeys(table: seq<KeyCode>, metaIndex: nat, altIndex: nat, shiftIndex: nat,
                    control: bool, meta: bool, alt: bool, shift: bool): seq<KeyCode>
    requires |table| == NUM_MODIFIER_INDEXES
    requires metaIndex < NUM_MODIFIER_INDEXES && altIndex < NUM_MODIFIER_INDEXES && shiftIndex < NUM_MODIFIER_INDEXES
  {
    OneIf(control, table[CONTROL_MAP_INDEX]) + OneIf(meta, table[metaIndex]) + OneIf(alt, table[altIndex])
    + OneIf(shift, table[shiftIndex])
  }

  // What the modifier table and the indices must be for the chosen modes to work around the
  // sequence of entry i: every chosen key exists and is used once, the sequence's own keys exist
  // and are used once, and the column that all of them select shows the keysym.
  predicate ModesFit(m: Mapping, i: nat, table: seq<KeyCode>, metaIndex: nat, altIndex: nat, shiftIndex: nat,
                     control: bool, meta: bool, alt: bool, shift: bool)
    requires m.Legal() && i < |m.table| && |table| == NUM_MODIFIER_INDEXES
    requires metaIndex < NUM_MODIFIER_INDEXES && altIndex < NUM_MODIFIER_INDEXES && shiftIndex < NUM_MODIFIER_INDEXES
  {
    var (c, t, a, h) := (table[CONTROL_MAP_INDEX], table[metaIndex], table[altIndex], table[shiftIndex]);
    && (control ==> Unused(m, i, c)) && (meta ==> Unused(m, i, t)) && (alt ==> Unused(m, i, a)) && (shift ==> Unused(m, i, h))
    && (control && meta ==> c != t) && (control && alt ==> c != a) && (control && shift ==> c != h)
    && (meta && alt ==> t != a) && (meta && shift ==> t != h) && (alt && shift ==> a != h)
    && Reaches(m, i, HeldKeys(table, metaIndex, altIndex, shiftIndex, control, meta, alt, shift))
  }

  lemma {:induction false} OneIfIs(wanted: bool, k: KeyCode)
    ensures KeySet(OneIf(wanted, k)) == if wanted then {k} else {}
    ensures Distinct(OneIf(wanted, k))
  {
  }

  // Which keys are held, and when they are different.
  lemma {:induction false} HeldKeysAre(table: seq<KeyCode>, metaIndex: nat, altIndex: nat, shiftIndex: nat,
          control: bool, meta: bool, alt: bool, shift: bool)
    requires |table| == NUM_MODIFIER_INDEXES
    requires metaIndex < NUM_MODIFIER_INDEXES && altIndex < NUM_MODIFIER_INDEXES && shiftIndex < NUM_MODIFIER_INDEXES
    ensures var held := HeldKeys(table, metaIndex, altIndex, shiftIndex, control, meta, alt, shift);
            var (c, t, a, h) := (table[CONTROL_MAP_INDEX], table[metaIndex], table[altIndex], table[shiftIndex]);
            && KeySet(held) == (if control then {c} else {}) + (if meta then {t} else {})
                               + (if alt then {a} else {}) + (if shift then {h} else {})
            && (Distinct(held) <==>
                  && (control && meta ==> c != t) && (control && alt ==> c != a) && (control && shift ==> c != h)
                  && (meta && alt ==> t != a) && (meta && shift ==> t != h) && (alt && shift ==> a != h))
  {
    var (c, t) := (OneIf(control, table[CONTROL_MAP_INDEX]), OneIf(meta, table[metaIndex]));
    var (a, h) := (OneIf(alt, table[altIndex]), OneIf(shift, table[shiftIndex]));
    OneIfIs(control, table[CONTROL_MAP_INDEX]);
    OneIfIs(meta, table[metaIndex]);
    OneIfIs(alt, table[altIndex]);
    OneIfIs(shift, table[shiftIndex]);
    DistinctJoin(c, t);
    DistinctJoin(c + t, a);
    DistinctJoin(c + t + a, h);
  }

  // All four together go down in this order; Control is modifier 2.
  lemma {:induction false} HeldInOrder(table: seq<KeyCode>, metaIndex: nat, altIndex: nat, shiftIndex: nat)
    requires |table| == 9 && metaIndex < 9 && altIndex < 9 && shiftIndex < 9
    ensures HeldKeys(table, metaIndex, altIndex, shiftIndex, true, true, true, true)
            == [table[2], table[metaIndex], table[altIndex], table[shiftIndex]]
    ensures HeldKeys(table, metaIndex, altIndex, shiftIndex, true, false, false, false) == [table[2]]
    ensures HeldKeys(table, metaIndex, altIndex, shiftIndex, false, true, false, false) == [table[metaIndex]]
    ensures HeldKeys(table, metaIndex, altIndex, shiftIndex, false, false, true, false) == [table[altIndex]]
    ensures HeldKeys(table, metaIndex, altIndex, shiftIndex, false, false, false, true) == [table[shiftIndex]]
  {
  }

  lemma {:induction false} ModesFitExactly(m: Mapping, i: nat, table: seq<KeyCode>, metaIndex: nat, altIndex: nat,
          shiftIndex: nat, control: bool, meta: bool, alt: bool, shift: bool)
    requires m.Legal() && i < |m.table| && |table| == NUM_MODIFIER_INDEXES
    requires metaIndex < NUM_MODIFIER_INDEXES && altIndex < NUM_MODIFIER_INDEXES && shiftIndex < NUM_MODIFIER_INDEXES
    ensures ModesFit(m, i, table, metaIndex, altIndex, shiftIndex, control, meta, alt, shift) <==>
      Selectable(m, i, HeldKeys(table, metaIndex, altIndex, shiftIndex, control, meta, alt, shift))
  {
    var held := HeldKeys(table, metaIndex, altIndex, shiftIndex, control, meta, alt, shift);
    SelectableApart(m, i, held);
    HeldKeysAre(table, metaIndex, altIndex, shiftIndex, control, meta, alt, shift);
    assert forall k :: k in held <==> k in KeySet(held);
  }

  // sendKeySequence is correct exactly as the modifier table and the indices allow. For every choice
  // of modes and every keysym found in the table, from a state in which the keys involved are up:
  // the replay types exactly the keysym and leaves exactly the keys down that were down before, if
  // and only if ModesFit.
  lemma {:induction false} ModesCorrect(m: Mapping, ks: KeySym, i: nat, s: Server, table: seq<KeyCode>, metaIndex: nat,
          altIndex: nat, shiftIndex: nat, control: bool, meta: bool, alt: bool, shift: bool)
    requires m.Legal() && ks != NO_SYMBOL && Find(m.table, ks) == Some(i) && s.clean && |table| == NUM_MODIFIER_INDEXES
    requires metaIndex < NUM_MODIFIER_INDEXES && altIndex < NUM_MODIFIER_INDEXES && shiftIndex < NUM_MODIFIER_INDEXES
    requires m.shift !in s.down && m.mode !in s.down && m.KeyOf(i) !in s.down && KeySet(table) !! s.down
    ensures var held := HeldKeys(table, metaIndex, altIndex, shiftIndex, control, meta, alt, shift);
            Replay(m, s, Around(m, i, held)) == s.(log := s.log + Sounds(m, s.down, held + Uses(m, i % 4)) + [ks])
            <==> ModesFit(m, i, table, metaIndex, altIndex, shiftIndex, control, meta, alt, shift)
  {
    var held := HeldKeys(table, metaIndex, altIndex, shiftIndex, control, meta, alt, shift);
    HeldKeysAre(table, metaIndex, altIndex, shiftIndex, control, meta, alt, shift);
    forall k | k in KeySet(held) ensures k in KeySet(table) {
    }
    HeldSequenceCorrect(m, ks, i, s, held);
    ModesFitExactly(m, i, table, metaIndex, altIndex, shiftIndex, control, meta, alt, shift);
  }

  // The indices start at 0, the place of Shift, and stay there unless one of Mod1 to Mod5 has a key
  // of the name. The shift mode then holds the very key that shifted columns press, and so does the
  // meta or the alt mode: every keysym in columns 1 and 3 fails. Two modes of that kind fail on all
  // keysyms.
  lemma {:induction false} UnnamedModesHoldShift(m: Mapping, i: nat, table: seq<KeyCode>, unshifted: KeyCode -> KeySym,
          names: set<KeySym>, others: set<KeySym>)
    requires m.Legal() && i < |m.table| && |table| == NUM_MODIFIER_INDEXES && m.shift == table[SHIFT_MAP_INDEX]
    requires forall j | MOD1_MAP_INDEX <= j < 8 :: !IsNamed(table, unshifted, names, j) && !IsNamed(table, unshifted, others, j)
    ensures var (x, y) := (LastNamed(table, unshifted, names, 8, 0), LastNamed(table, unshifted, others, 8, 0));
            && x == y == SHIFT_MAP_INDEX
            && HeldKeys(table, x, x, x, false, false, false, true) == [m.shift]
            && HeldKeys(table, x, x, x, false, true, false, false) == [m.shift]
            && (i % 2 == 1 ==> !ModesFit(m, i, table, x, x, x, false, false, false, true))
            && (i % 2 == 1 ==> !ModesFit(m, i, table, x, x, x, false, true, false, false))
            && !ModesFit(m, i, table, x, y, 0, false, true, true, false)
  {
    LastNamedIs(table, unshifted, names, 8, 0);
    LastNamedIs(table, unshifted, others, 8, 0);
  }
  class VirtKeys {
    var open: bool                    // a display was set
    var keymap: array?<KeySym>        // the table, row after row
    var minKeycode: nat
    var maxKeycode: nat
    var keysymsPerKeycode: nat
    var metaModifierIndex: nat
    var altModifierIndex: nat
    var shiftModifierIndex: nat
    var modeSwitchKeyCode: KeyCode
    const modifierTable: array<KeyCode>
    var served: seq<KeySym>           // the server's own table, as the last change left it
    var trace: seq<Stroke>            // the key events sent
    const lower: KeySym -> KeySym     // the two cases of a keysym, as the server knows them
    const upper: KeySym -> KeySym

    constructor (lower: KeySym -> KeySym, upper: KeySym -> KeySym)
      ensures this.lower == lower && this.upper == upper
      ensures !open && keymap == null && trace == [] && served == []
      ensures modeSwitchKeyCode == 0 && metaModifierIndex == altModifierIndex == shiftModifierIndex == 0
      ensures fresh(modifierTable) && Indexed() && modifierTable[..] == seq(NUM_MODIFIER_INDEXES, _ => 0)
    {
      this.lower, this.upper := lower, upper;
      open, keymap, trace, served := false, null, [], [];
      minKeycode, maxKeycode, keysymsPerKeycode, modeSwitchKeyCode := 0, 0, 0, 0;
      metaModifierIndex, altModifierIndex, shiftModifierIndex := 0, 0, 0;
      modifierTable := new KeyCode[NUM_MODIFIER_INDEXES](_ => 0);
    }

    predicate Indexed()
      reads this`metaModifierIndex, this`altModifierIndex, this`shiftModifierIndex
    {
      && modifierTable.Length == NUM_MODIFIER_INDEXES
      && metaModifierIndex < NUM_MODIFIER_INDEXES
      && altModifierIndex < NUM_MODIFIER_INDEXES
      && shiftModifierIndex < NUM_MODIFIER_INDEXES
    }

    // The table is the one the server uses.
    ghost predicate Shaped()
      reads this`keymap, this`minKeycode, this`maxKeycode, this`keysymsPerKeycode, this`served, keymap
    {
      && keymap != null && keysymsPerKeycode > 0
      && 8 <= minKeycode <= maxKeycode <= 255
      && keymap.Length == (maxKeycode - minKeycode + 1) * keysymsPerKeycode
      && served == keymap[..]
    }

    // The table is loaded and has four columns.
    ghost predicate Loaded()
      reads this`keymap, this`minKeycode, this`maxKeycode, this`keysymsPerKeycode, this`served, keymap
    {
      Shaped() && keysymsPerKeycode == 4
    }

    ghost function Mapping(): (m: KeySequence.Mapping)
      requires Loaded() && Indexed()
      reads this`keymap, this`minKeycode, this`maxKeycode, this`keysymsPerKeycode, this`served, this`modeSwitchKeyCode
      reads this`metaModifierIndex, this`altModifierIndex, this`shiftModifierIndex, keymap, modifierTable
      ensures m.Legal() && m.minKeycode == minKeycode && m.table == keymap[..]
      ensures m.shift == modifierTable[0] && m.mode == modeSwitchKeyCode && m.lower == lower && m.upper == upper
    {
      KeySequence.Mapping(minKeycode, keymap[..], modifierTable[SHIFT_MAP_INDEX], modeSwitchKeyCode, lower, upper)
    }

    // createModifierTable. The arguments are the server's answers: the keycode of Mode_switch, the
    // unshifted keysym of every keycode, and the modifier map.
    method CreateModifierTable(modeKeycode: KeyCode, unshifted: KeyCode -> KeySym,
                               modifierMap: seq<seq<KeyCode>>) returns (ok: bool)
      requires Indexed() && |modifierMap| == 8
      modifies this, modifierTable
      ensures Indexed() && open == old(open) && trace == old(trace) && keymap == old(keymap)
      ensures ok <==> open && modeKeycode != 0 && unshifted(modeKeycode) == XK_MODE_SWITCH
      ensures !ok ==> modifierTable[..] == old(modifierTable[..]) && modeSwitchKeyCode == old(modeSwitchKeyCode)
      ensures ok ==> modeSwitchKeyCode == modeKeycode != 0 && modifierTable[NO_MODIFIER_MAP_INDEX] == 0
      ensures ok ==> forall i | 0 <= i < 8 :: modifierTable[i] == FirstInUse(modifierMap[i])
      ensures !ok ==> metaModifierIndex == old(metaModifierIndex) && altModifierIndex == old(altModifierIndex)
                      && shiftModifierIndex == old(shiftModifierIndex)
      ensures ok ==> metaModifierIndex == LastNamed(modifierTable[..], unshifted, METAS, 8, old(metaModifierIndex))
      ensures ok ==> altModifierIndex == LastNamed(modifierTable[..], unshifted, ALTS, 8, old(altModifierIndex))
      ensures ok ==> shiftModifierIndex == LastNamed(modifierTable[..], unshifted, SHIFTS, 8, old(shiftModifierIndex))
    {
      if !open { return false; }
      if modeKeycode == 0 { return false; }
      if unshifted(modeKeycode) != XK_MODE_SWITCH { return false; }
      modeSwitchKeyCode := modeKeycode;
      FindKeys(modifierMap);
      modifierTable[NO_MODIFIER_MAP_INDEX] := 0;
      FindIndices(unshifted);
      ok := true;
    }

    // The loop over the modifiers: the first keycode in use of each.
    method FindKeys(modifierMap: seq<seq<KeyCode>>)
      requires Indexed() && |modifierMap| == 8
      modifies modifierTable
      ensures forall i | 0 <= i < 8 :: modifierTable[i] == FirstInUse(modifierMap[i])
    {
      var index := 0;
      while index < 8
        invariant 0 <= index <= 8
        invariant forall i | 0 <= i < index :: modifierTable[i] == FirstInUse(modifierMap[i])
      {
        modifierTable[index] := 0;
        var kp := modifierMap[index];
        var key := 0;
        while key < |kp|
          invariant 0 <= key <= |kp|
          invariant modifierTable[index] == 0 && FirstInUse(kp) == FirstInUse(kp[key..])
          invariant forall i | 0 <= i < index :: modifierTable[i] == FirstInUse(modifierMap[i])
        {
          assert kp[key..][1..] == kp[key + 1..];
          if kp[key] != 0 {
            modifierTable[index] := kp[key];
            break;
          }
          key := key + 1;
        }
        assert modifierTable[index] == FirstInUse(kp);
        index := index + 1;
      }
    }

    // The loop from Mod1 to Mod5: which of them are Meta, Alt and Shift.
    method FindIndices(unshifted: KeyCode -> KeySym)
      requires Indexed()
      modifies this`metaModifierIndex, this`altModifierIndex, this`shiftModifierIndex
      ensures Indexed()
      ensures metaModifierIndex == LastNamed(modifierTable[..], unshifted, METAS, 8, old(metaModifierIndex))
      ensures altModifierIndex == LastNamed(modifierTable[..], unshifted, ALTS, 8, old(altModifierIndex))
      ensures shiftModifierIndex == LastNamed(modifierTable[..], unshifted, SHIFTS, 8, old(shiftModifierIndex))
    {
      ghost var table := modifierTable[..];
      var index := MOD1_MAP_INDEX;
      while index <= MOD5_MAP_INDEX
        invariant Indexed() && MOD1_MAP_INDEX <= index <= 8
        invariant metaModifierIndex == LastNamed(table, unshifted, METAS, index, old(metaModifierIndex))
        invariant altModifierIndex == LastNamed(table, unshifted, ALTS, index, old(altModifierIndex))
        invariant shiftModifierIndex == LastNamed(table, unshifted, SHIFTS, index, old(shiftModifierIndex))
      {
        if modifierTable[index] != 0 {
          var ks := unshifted(modifierTable[index]);
          if ks == XK_META_R || ks == XK_META_L {
            metaModifierIndex := index;
          } else if ks == XK_ALT_R || ks == XK_ALT_L {
            altModifierIndex := index;
          } else if ks == XK_SHIFT_R || ks == XK_SHIFT_L {
            shiftModifierIndex := index;
          }
        }
        index := index + 1;
      }
    }

    // loadKeySymTable. The arguments are the server's answers; the server treats a two-column
    // row as one whose second group is empty. A table of any other width is kept as it is.
    method LoadKeySymTable(lowest: nat, highest: nat, perKeycode: nat, theirs: array<KeySym>) returns (ok: bool)
      requires 8 <= lowest <= highest <= 255 && perKeycode > 0
      requires theirs.Length == (highest - lowest + 1) * perKeycode
      modifies this`minKeycode, this`maxKeycode, this`keysymsPerKeycode, this`keymap, this`served
      ensures ok <==> open && (perKeycode == 2 || perKeycode == 4)
      ensures ok ==> Loaded()
      ensures open ==> Shaped() && minKeycode == lowest && maxKeycode == highest
      ensures open && perKeycode != 2 ==> keymap == theirs && keysymsPerKeycode == perKeycode
      ensures ok && perKeycode == 2 ==> |theirs[..]| % 2 == 0 && keymap[..] == Widen(old(theirs[..])) && fresh(keymap)
    {
      if !open { return false; }
      minKeycode, maxKeycode := lowest, highest;
      keymap, keysymsPerKeycode := theirs, perKeycode;
      served := keymap[..];
      if keysymsPerKeycode == 4 {
        return true;
      }
      if keysymsPerKeycode != 2 {
        return false;
      }
      var rows := maxKeycode - minKeycode + 1;
      var newKeymap := WideCopy(theirs, rows);
      keysymsPerKeycode := 4;
      keymap := newKeymap;
      served := keymap[..];
      ok := true;
    }

    // The copy of a two-column table into four columns.
    method WideCopy(theirs: array<KeySym>, rows: nat) returns (newKeymap: array<KeySym>)
      requires theirs.Length == 2 * rows
      ensures fresh(newKeymap) && |theirs[..]| % 2 == 0 && newKeymap[..] == Widen(theirs[..])
    {
      newKeymap := new KeySym[rows * 4];
      var k := 0;
      while k < rows
        invariant 0 <= k <= rows && newKeymap[..4 * k] == Widen(theirs[..2 * k])
      {
        CopyRow(theirs, newKeymap, k);
        assert theirs[..2 * k + 2][..2 * k] == theirs[..2 * k];
        k := k + 1;
      }
      assert theirs[..2 * k] == theirs[..] && newKeymap[..4 * k] == newKeymap[..];
    }

    // The body of the loop over the rows: two new entries, and the two that are there.
    method CopyRow(theirs: array<KeySym>, newKeymap: array<KeySym>, k: nat)
      requires theirs != newKeymap && 2 * k + 2 <= theirs.Length && 4 * k + 4 <= newKeymap.Length
      modifies newKeymap
      ensures newKeymap[..4 * k + 4] == old(newKeymap[..4 * k]) + [theirs[2 * k], theirs[2 * k + 1], NO_SYMBOL, NO_SYMBOL]
    {
      ghost var done := newKeymap[..4 * k];
      var n := 2;
      while n < 4
        invariant 2 <= n <= 4 && newKeymap[..4 * k] == done
        invariant n > 2 ==> newKeymap[4 * k + 2] == NO_SYMBOL
        invariant n > 3 ==> newKeymap[4 * k + 3] == NO_SYMBOL
      {
        newKeymap[k * 4 + n] := NO_SYMBOL;
        n := n + 1;
      }
      n := 0;
      while n < 2
        invariant 0 <= n <= 2 && newKeymap[..4 * k] == done
        invariant n > 0 ==> newKeymap[4 * k] == theirs[2 * k]
        invariant n > 1 ==> newKeymap[4 * k + 1] == theirs[2 * k + 1]
        invariant newKeymap[4 * k + 2] == newKeymap[4 * k + 3] == NO_SYMBOL
      {
        newKeymap[k * 4 + n] := theirs[k * 2 + n];
        n := n + 1;
      }
    }

    // The nested search: the first occurrence of the keysym, and the first entry that could be
    // claimed for it.
    method Scan(ks: KeySym) returns (found: bool, assignedKeycode: int, assignedColumn: int,
                                     availableKeycode: int, availableColumn: int)
      requires Shaped()
      ensures Scanned(keymap[..], keysymsPerKeycode, ks, keymap.Length, found, assignedKeycode, assignedColumn,
                      availableKeycode, availableColumn)
    {
      found, assignedKeycode, assignedColumn := false, -1, -1;
      availableKeycode, availableColumn := -1, -1;
      var rows := maxKeycode - minKeycode + 1;
      var keycode := 0;
      while keycode < rows && !found
        invariant 0 <= keycode <= rows
        invariant Scanned(keymap[..], keysymsPerKeycode, ks, keycode * keysymsPerKeycode, found, assignedKeycode,
                          assignedColumn, availableKeycode, availableColumn)
      {
        RowFits(keycode, rows, keysymsPerKeycode);
        found, assignedColumn, availableKeycode, availableColumn := ScanRow(ks, keycode, availableKeycode, availableColumn);
        assignedKeycode := keycode;
        keycode := keycode + 1;
      }
    }

    // The inner loop.
    method ScanRow(ks: KeySym, keycode: nat, keycodeSoFar: int, columnSoFar: int)
      returns (found: bool, assignedColumn: int, availableKeycode: int, availableColumn: int)
      requires Shaped() && (keycode + 1) * keysymsPerKeycode <= keymap.Length
      requires Scanned(keymap[..], keysymsPerKeycode, ks, keycode * keysymsPerKeycode, false, -1, -1, keycodeSoFar, columnSoFar)
      ensures Scanned(keymap[..], keysymsPerKeycode, ks, (keycode + 1) * keysymsPerKeycode, found, keycode, assignedColumn,
                      availableKeycode, availableColumn)
    {
      found, assignedColumn := false, -1;
      availableKeycode, availableColumn := keycodeSoFar, columnSoFar;
      ghost var (before, w, start) := (keymap[..], keysymsPerKeycode, keycode * keysymsPerKeycode);
      assert (keycode + 1) * w == start + w;
      var column := 0;
      while column < keysymsPerKeycode && !found
        invariant 0 <= column <= w && start + w <= |before|
        invariant Scanned(before, w, ks, start + column, found, keycode, assignedColumn, availableKeycode, availableColumn)
      {
        RowStartIs(keycode, column, w);
        assert before[start + column] == keymap[start + column] && before[start] == keymap[start + 0];
        if keymap[keycode * keysymsPerKeycode + column] == ks {
          found, assignedColumn := true, column;
          FindIsFirst(before, ks, start + column);
        } else if availableColumn == -1 {
          if !IsModifierKey(keymap[keycode * keysymsPerKeycode + 0]) {
            if keymap[keycode * keysymsPerKeycode + column] == NO_SYMBOL {
              availableColumn, availableKeycode := column, keycode;
              FreeIsFirst(before, start + column, w);
            }
          }
        }
        column := column + 1;
      }
    }

    // The keycode of an entry.
    function KeyAt(i: nat): (key: KeyCode)
      requires keymap != null && keysymsPerKeycode > 0 && i < keymap.Length && minKeycode <= maxKeycode <= 255
      requires keymap.Length == (maxKeycode - minKeycode + 1) * keysymsPerKeycode
      reads this
      ensures key == minKeycode + i / keysymsPerKeycode
    {
      RowOfEntry(i, maxKeycode - minKeycode + 1, keysymsPerKeycode);
      minKeycode + i / keysymsPerKeycode
    }

    // lookupKeyCodeSequence. On success the table holds the compiled sequence and its terminator,
    // and everything after the terminator is what it was. From a table of more than four columns a
    // keysym may be found past the fourth, and then nothing is stored.
    method LookupKeyCodeSequence(ks: KeySym, table: array<Entry>) returns (ok: bool)
      requires Indexed() && (open && keymap != null ==> Shaped()) && table.Length >= 6
      modifies this`served, keymap, table
      ensures open && keymap != null ==> Shaped()
      ensures !open || keymap == null ==> !ok && served == old(served)
      ensures open && keymap != null ==>
                var p := Place(old(keymap[..]), ks, keysymsPerKeycode);
                && keymap[..] == p.table
                && (ok <==> p.slot.Some?)
                && (ok ==> Stored(table[..], old(table[..]), p.slot.value % keysymsPerKeycode, KeyAt(p.slot.value)))
      ensures !ok ==> table[..] == old(table[..])
    {
      if !open || keymap == null { return false; }
      ghost var rows := maxKeycode - minKeycode + 1;
      var row, column;
      ok, row, column := Assign(ks);
      if ok {
        SlotIs(row, column, keysymsPerKeycode);
        RowBelow(row, column, rows, keysymsPerKeycode);
        FillTable(column, row + minKeycode, table);
      }
    }

    // The entries that a column's case of the switch stores, and nothing else.
    ghost predicate Stored(table: seq<Entry>, before: seq<Entry>, column: nat, key: KeyCode)
      requires Indexed() && |table| == |before| >= 6
      reads this, modifierTable
    {
      var entries := Sequence(column, key, modifierTable[SHIFT_MAP_INDEX], modeSwitchKeyCode);
      if column < 4 then
        table[..|entries|] == entries && table[|entries|].keycode == 0
        && forall i | |entries| < i < |table| :: table[i] == before[i]
      else table == before
    }

    // The keysym's place in the table, claimed for it if it had none.
    method Assign(ks: KeySym) returns (ok: bool, row: int, column: int)
      requires Shaped()
      modifies this`served, keymap
      ensures Shaped()
      ensures var p := Place(old(keymap[..]), ks, keysymsPerKeycode);
              keymap[..] == p.table && (ok <==> p.slot.Some?) && (ok ==> IsSlot(p.slot, row, column, keysymsPerKeycode))
    {
      ghost var before := keymap[..];
      var found, assignedKeycode, assignedColumn, availableKeycode, availableColumn := Scan(ks);
      if !found {
        if availableColumn == -1 {
          return false, -1, -1;
        }
        ghost var rows := maxKeycode - minKeycode + 1;
        RowBelow(availableKeycode, availableColumn, rows, keysymsPerKeycode);
        RowFits(availableKeycode, rows, keysymsPerKeycode);
        keymap[availableKeycode * keysymsPerKeycode + availableColumn] := ks;
        ChangeKeyboardMapping(availableKeycode);
        assert keymap[..] == before[availableKeycode * keysymsPerKeycode + availableColumn := ks];
        assignedKeycode, assignedColumn := availableKeycode, availableColumn;
      }
      return true, assignedKeycode, assignedColumn;
    }

    // XChangeKeyboardMapping for the one row that changed.
    method ChangeKeyboardMapping(row: nat)
      requires keymap != null && (row + 1) * keysymsPerKeycode <= keymap.Length == |served|
      requires row * keysymsPerKeycode <= (row + 1) * keysymsPerKeycode
      requires served[..row * keysymsPerKeycode] == keymap[..row * keysymsPerKeycode]
      requires served[(row + 1) * keysymsPerKeycode..] == keymap[(row + 1) * keysymsPerKeycode..]
      modifies this`served
      ensures served == keymap[..]
    {
      var first, next := row * keysymsPerKeycode, (row + 1) * keysymsPerKeycode;
      served := served[..first] + keymap[first..next] + served[next..];
    }

    // The switch over the assigned column.
    method FillTable(column: nat, key: KeyCode, table: array<Entry>)
      requires Indexed() && table.Length >= 6
      modifies table
      ensures Stored(table[..], old(table[..]), column, key)
    {
      var shift := modifierTable[SHIFT_MAP_INDEX];
      var modeModifier := modeSwitchKeyCode;
      match column
      case 0 =>
        table[0] := Entry(key, KeyDownUp);
        table[1] := table[1].(keycode := 0);
      case 1 =>
        table[0] := Entry(shift, KeyDown);
        table[1] := Entry(key, KeyDownUp);
        table[2] := Entry(shift, KeyUp);
        table[3] := table[3].(keycode := 0);
      case 2 =>
        table[0] := Entry(modeModifier, KeyDown);
        table[1] := Entry(key, KeyDownUp);
        table[2] := Entry(modeModifier, KeyUp);
        table[3] := table[3].(keycode := 0);
      case 3 =>
        table[0] := Entry(shift, KeyDown);
        table[1] := Entry(modeModifier, KeyDown);
        table[2] := Entry(key, KeyDownUp);
        table[3] := Entry(modeModifier, KeyUp);
        table[4] := Entry(shift, KeyUp);
        table[5] := table[5].(keycode := 0);
      case _ =>
    }

    // The modifier keys held around a sequence.
    function Held(control: bool, meta: bool, alt: bool, shift: bool): seq<KeyCode>
      requires Indexed()
      reads this`metaModifierIndex, this`altModifierIndex, this`shiftModifierIndex, modifierTable
    {
      HeldKeys(modifierTable[..], metaModifierIndex, altModifierIndex, shiftModifierIndex, control, meta, alt, shift)
    }

    method SendKey(keycode: KeyCode, direction: Direction)
      modifies this`trace
      ensures trace == if open then old(trace) + StrokesOf(Entry(keycode, direction)) else old(trace)
    {
      if !open { return; }
      match direction
      case KeyDown => trace := trace + [Press(keycode)];
      case KeyUp => trace := trace + [Release(keycode)];
      case KeyDownUp =>
        trace := trace + [Press(keycode)];
        trace := trace + [Release(keycode)];
    }

    // Down events for the modifier keys.
    method HoldModifiers(control: bool, meta: bool, alt: bool, shift: bool)
      requires Indexed()
      modifies this`trace
      ensures trace == if open then old(trace) + Presses(Held(control, meta, alt, shift)) else old(trace)
    {
      SendIf(control, modifierTable[CONTROL_MAP_INDEX], KeyDown);
      SendIf(meta, modifierTable[metaModifierIndex], KeyDown);
      SendIf(alt, modifierTable[altModifierIndex], KeyDown);
      SendIf(shift, modifierTable[shiftModifierIndex], KeyDown);
      ghost var c, m := OneIf(control, modifierTable[CONTROL_MAP_INDEX]), OneIf(meta, modifierTable[metaModifierIndex]);
      ghost var a, s := OneIf(alt, modifierTable[altModifierIndex]), OneIf(shift, modifierTable[shiftModifierIndex]);
      PressesOnto(old(trace), c, m);
      PressesOnto(old(trace), c + m, a);
      PressesOnto(old(trace), c + m + a, s);
    }

    // Up events for the modifier keys.
    method FreeModifiers(control: bool, meta: bool, alt: bool, shift: bool)
      requires Indexed()
      modifies this`trace
      ensures trace == if open then old(trace) + Releases(Held(control, meta, alt, shift)) else old(trace)
    {
      SendIf(control, modifierTable[CONTROL_MAP_INDEX], KeyUp);
      SendIf(meta, modifierTable[metaModifierIndex], KeyUp);
      SendIf(alt, modifierTable[altModifierIndex], KeyUp);
      SendIf(shift, modifierTable[shiftModifierIndex], KeyUp);
      ghost var c, m := OneIf(control, modifierTable[CONTROL_MAP_INDEX]), OneIf(meta, modifierTable[metaModifierIndex]);
      ghost var a, s := OneIf(alt, modifierTable[altModifierIndex]), OneIf(shift, modifierTable[shiftModifierIndex]);
      ReleasesOnto(old(trace), c, m);
      ReleasesOnto(old(trace), c + m, a);
      ReleasesOnto(old(trace), c + m + a, s);
    }

    method SendIf(wanted: bool, keycode: KeyCode, direction: Direction)
      requires direction != KeyDownUp
      modifies this`trace
      ensures trace == if !open then old(trace)
                       else old(trace) + if direction.KeyDown? then Presses(OneIf(wanted, keycode)) else Releases(OneIf(wanted, keycode))
    {
      if wanted { SendKey(keycode, direction); }
    }

    // The loop over the stored entries, up to the first zero keycode.
    method SendEntries(entries: array<Entry>, ghost stop: nat)
      requires stop < entries.Length && entries[stop].keycode == 0
      modifies this`trace
      ensures trace == if open then old(trace) + Strokes(entries[..]) else old(trace)
    {
      ghost var all, start := entries[..], trace;
      var s := 0;
      while entries[s].keycode != 0
        invariant 0 <= s <= stop && forall j | 0 <= j < s :: all[j].keycode != 0
        invariant trace == if open then start + Sent(all, s) else start
        decreases stop - s
        modifies this`trace
      {
        SendKey(entries[s].keycode, entries[s].direction);
        Regrouped(start, Sent(all, s), StrokesOf(all[s]));
        s := s + 1;
      }
      SentIsAll(all, s);
    }

    method SendKeySequence(entries: array?<Entry>, control: bool, meta: bool, alt: bool, shift: bool)
      requires Indexed()
      requires entries != null ==> exists i :: 0 <= i < entries.Length && entries[i].keycode == 0
      modifies this`trace
      ensures !open || entries == null ==> trace == old(trace)
      ensures open && entries != null ==>
                trace == old(trace) + Presses(Held(control, meta, alt, shift)) + Strokes(entries[..])
                         + Releases(Held(control, meta, alt, shift))
    {
      if entries == null { return; }
      HoldModifiers(control, meta, alt, shift);
      ghost var stop :| 0 <= stop < entries.Length && entries[stop].keycode == 0;
      SendEntries(entries, stop);
      FreeModifiers(control, meta, alt, shift);
    }

    // A lookup in a four-column table: whatever the entry array held before, the strokes it stands
    // for afterwards are those of the compiled entry.
    method LookupCompiled(ks: KeySym, table: array<Entry>) returns (ok: bool)
      requires Indexed() && open && keymap != null && Loaded() && table.Length >= 6
      modifies this`served, keymap, table
      ensures Loaded() && keymap[..] == Place(old(keymap[..]), ks, 4).table
      ensures ok <==> Place(old(keymap[..]), ks, 4).slot.Some?
      ensures ok ==> Strokes(table[..]) == Compiled(Mapping(), Place(old(keymap[..]), ks, 4).slot.value)
      ensures ok ==> exists i :: 0 <= i < table.Length && table[i].keycode == 0
    {
      ok := LookupKeyCodeSequence(ks, table);
      if ok {
        ghost var i := Place(old(keymap[..]), ks, 4).slot.value;
        StoredIsCompiled(Mapping(), i, table[..]);
      }
    }

    // A lookup and a send, with modifier keys held around the sequence.
    method TypeKeysym(ks: KeySym, table: array<Entry>, control: bool, meta: bool, alt: bool, shift: bool) returns (ok: bool)
      requires Indexed() && open && keymap != null && Loaded() && table.Length >= 6
      modifies this`served, this`trace, keymap, table
      ensures Loaded() && keymap[..] == Place(old(keymap[..]), ks, 4).table
      ensures ok <==> Place(old(keymap[..]), ks, 4).slot.Some?
      ensures trace == if ok then old(trace) + Around(Mapping(), Place(old(keymap[..]), ks, 4).slot.value,
                                                      Held(control, meta, alt, shift))
                       else old(trace)
    {
      ok := LookupCompiled(ks, table);
      if ok {
        SendCompiled(Mapping(), Place(old(keymap[..]), ks, 4).slot.value, table, control, meta, alt, shift);
      }
    }

    // A send of stored entries that stand for the strokes of a compiled entry.
    method SendCompiled(ghost m: KeySequence.Mapping, ghost i: nat, table: array<Entry>, control: bool, meta: bool,
                        alt: bool, shift: bool)
      requires Indexed() && open && m.Legal() && i < |m.table|
      requires Strokes(table[..]) == Compiled(m, i) && exists n :: 0 <= n < table.Length && table[n].keycode == 0
      modifies this`trace
      ensures trace == old(trace) + Around(m, i, Held(control, meta, alt, shift))
    {
      ghost var start, held := trace, Held(control, meta, alt, shift);
      SendKeySequence(table, control, meta, alt, shift);
      OntoAround(start, Presses(held), Compiled(m, i), Releases(held));
    }
  }

  lemma {:induction false} OntoAround(start: seq<Stroke>, a: seq<Stroke>, b: seq<Stroke>, c: seq<Stroke>)
    ensures start + a + b + c == start + (a + b + c)
  {
    Regrouped(start, a, b);
    Regrouped(start, a + b, c);
  }

  lemma {:induction false} RowFits(row: nat, rows: nat, w: Width)
    requires row < rows
    ensures row * w <= (row + 1) * w == row * w + w <= rows * w
  {
    Monotone(row + 1, rows, w);
  }

  lemma {:induction false} RowOfEntry(i: nat, rows: nat, w: Width)
    requires i < rows * w
    ensures i / w < rows
  {
    var (q, r) := (i / w, i % w);
    assert i == q * w + r;
    RowBelow(q, r, rows, w);
  }

  lemma {:induction false} RowBelow(row: nat, column: nat, rows: nat, w: Width)
    requires column < w && row * w + column < rows * w
    ensures row < rows
  {
    Monotone(rows, row, w);
  }
}
