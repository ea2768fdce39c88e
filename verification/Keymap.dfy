// The keysym table of libvirtkeys.c: w keysyms per keycode, stored row after row.
// Looking a keysym up either finds its first occurrence or claims the first free entry.
module Keymap {
  import opened Wrappers

  type KeySym = nat

  const NO_SYMBOL: KeySym := 0

  type Width = w: nat | w > 0 witness 1

  // The IsModifierKey macro of Xutil.h: Shift_L to Hyper_R, the ISO locks, Mode_switch and Num_Lock.
  predicate IsModifierKey(ks: KeySym) {
    || 0xffe1 <= ks <= 0xffee
    || 0xfe01 <= ks <= 0xfe0f
    || ks == 0xff7e
    || ks == 0xff7f
  }

  // The first entry of the row that entry i is in.
  function RowStart(i: nat, w: Width): (start: nat)
    ensures start <= i
  {
    if i < w then 0 else w + RowStart(i - w, w)
  }

  lemma {:induction false} RowStartIs(row: nat, column: nat, w: Width)
    requires column < w
    ensures RowStart(row * w + column, w) == row * w
    decreases row
  {
    if row > 0 {
      assert row * w + column == (row - 1) * w + column + w;
      RowStartIs(row - 1, column, w);
    }
  }

  // An entry that may be claimed: empty, in a row whose unshifted keysym is not a modifier.
  predicate Free(table: seq<KeySym>, i: nat, w: Width)
    requires i < |table|
  {
    table[i] == NO_SYMBOL && !IsModifierKey(table[RowStart(i, w)])
  }

  // The first occurrence of ks at or after i.
  function FindFrom(table: seq<KeySym>, ks: KeySym, i: nat): (r: Option<nat>)
    requires i <= |table|
    ensures r.Some? ==> i <= r.value < |table| && table[r.value] == ks
    ensures r.Some? ==> forall j | i <= j < r.value :: table[j] != ks
    ensures r.None? ==> forall j | i <= j < |table| :: table[j] != ks
    decreases |table| - i
  {
    if i == |table| then None
    else if table[i] == ks then Some(i)
    else FindFrom(table, ks, i + 1)
  }

  function Find(table: seq<KeySym>, ks: KeySym): Option<nat> {
    FindFrom(table, ks, 0)
  }

  // The first free entry at or after i.
  function FreeFrom(table: seq<KeySym>, i: nat, w: Width): (r: Option<nat>)
    requires i <= |table|
    ensures r.Some? ==> i <= r.value < |table| && Free(table, r.value, w)
    ensures r.Some? ==> forall j | i <= j < r.value :: !Free(table, j, w)
    ensures r.None? ==> forall j | i <= j < |table| :: !Free(table, j, w)
    decreases |table| - i
  {
    if i == |table| then None
    else if Free(table, i, w) then Some(i)
    else FreeFrom(table, i + 1, w)
  }

  function FirstFree(table: seq<KeySym>, w: Width): Option<nat> {
    FreeFrom(table, 0, w)
  }

  datatype Placement = Placement(table: seq<KeySym>, slot: Option<nat>)

  // The search-or-claim half of lookupKeyCodeSequence.
  function Place(table: seq<KeySym>, ks: KeySym, w: Width): (p: Placement)
    ensures |p.table| == |table| && (p.slot.Some? ==> p.slot.value < |table|)
  {
    match Find(table, ks)
    case Some(i) => Placement(table, Some(i))
    case None =>
      match FirstFree(table, w)
      case Some(j) => Placement(table[j := ks], Some(j))
      case None => Placement(table, None)
  }

  // The table after a run of lookups, and whether every one of them succeeded.
  function PlaceAll(table: seq<KeySym>, wanted: seq<KeySym>, w: Width): (after: seq<KeySym>)
    ensures |after| == |table|
    decreases |wanted|
  {
    if wanted == [] then table else PlaceAll(Place(table, wanted[0], w).table, wanted[1..], w)
  }

  predicate AllPlaced(table: seq<KeySym>, wanted: seq<KeySym>, w: Width)
    decreases |wanted|
  {
    wanted == [] ||
    (Place(table, wanted[0], w).slot.Some? && AllPlaced(Place(table, wanted[0], w).table, wanted[1..], w))
  }

  function FreeCount(table: seq<KeySym>, n: nat, w: Width): nat
    requires n <= |table|
  {
    if n == 0 then 0 else FreeCount(table, n - 1, w) + if Free(table, n - 1, w) then 1 else 0
  }

  // ---------- what a single lookup does ----------

  lemma {:induction false} FindIsFirst(table: seq<KeySym>, ks: KeySym, i: nat)
    requires i < |table| && table[i] == ks
    requires forall j | 0 <= j < i :: table[j] != ks
    ensures Find(table, ks) == Some(i)
  {
    var r := Find(table, ks);
    assert r.Some? && !(r.value < i) && !(i < r.value);
  }

  lemma {:induction false} FreeIsFirst(table: seq<KeySym>, i: nat, w: Width)
    requires i < |table| && Free(table, i, w)
    requires forall j | 0 <= j < i :: !Free(table, j, w)
    ensures FirstFree(table, w) == Some(i)
  {
    var r := FirstFree(table, w);
    assert r.Some? && !(r.value < i) && !(i < r.value);
  }

  // A lookup fails exactly when the keysym is absent and nothing is free, and then changes nothing.
  lemma {:induction false} PlaceFailsExactly(table: seq<KeySym>, ks: KeySym, w: Width)
    ensures Place(table, ks, w).slot.None? <==>
              ks !in table && forall i | 0 <= i < |table| :: !Free(table, i, w)
    ensures Place(table, ks, w).slot.None? ==> Place(table, ks, w).table == table
  {
    if ks in table {
      var i :| 0 <= i < |table| && table[i] == ks;
      assert Find(table, ks).Some?;
    }
  }

  // A lookup that claims an entry claims the first free one, and changes nothing else.
  lemma {:induction false} PlaceClaimsFirstFree(table: seq<KeySym>, ks: KeySym, w: Width)
    requires ks !in table && Place(table, ks, w).slot.Some?
    ensures var j := Place(table, ks, w).slot.value;
            && j < |table| && Free(table, j, w) && (forall i | 0 <= i < j :: !Free(table, i, w))
            && Place(table, ks, w).table == table[j := ks]
  {
    assert Find(table, ks).None?;
  }

  // The modifiers are Shift_L to Hyper_R, the ISO locks, Mode_switch and Num_Lock, and no letter.
  lemma {:induction false} ModifierKeysAre(ks: KeySym)
    ensures IsModifierKey(0xffe1) && IsModifierKey(0xffee) && IsModifierKey(0xff7e) && IsModifierKey(0xff7f)
    ensures IsModifierKey(0xfe01) && IsModifierKey(0xfe0f)
    ensures ks < 0xfe01 || 0xfe0f < ks < 0xff7e || 0xff7f < ks < 0xffe1 || 0xffee < ks ==> !IsModifierKey(ks)
  {
  }

  lemma {:induction false} FreeIs(table: seq<KeySym>, row: nat, column: nat, w: Width)
    requires column < w && row * w + column < |table|
    ensures Free(table, row * w + column, w) <==> table[row * w + column] == 0 && !IsModifierKey(table[row * w])
  {
    RowStartIs(row, column, w);
  }

  // Where a lookup of an absent keysym writes, entry by entry. The entry it claims is empty and its
  // row starts with no modifier; any other entry like that comes later, row by row; and a lookup
  // that fails leaves none. For all entries, given by row and column.
  lemma {:induction false} ClaimIsFirst(table: seq<KeySym>, ks: KeySym, row: nat, column: nat, w: Width)
    requires ks !in table && column < w && row * w + column < |table|
    ensures var (p, i, claimable) := (Place(table, ks, w), row * w + column,
                                      table[row * w + column] == 0 && !IsModifierKey(table[row * w]));
            && (p.slot == Some(i) ==> claimable && p.table == table[i := ks])
            && (claimable ==> p.slot.Some? && p.slot.value <= i)
  {
    FreeIs(table, row, column, w);
    assert Find(table, ks).None?;
  }

  // And every claimed entry is one of a row and a column.
  lemma {:induction false} ClaimIsSomewhere(table: seq<KeySym>, ks: KeySym, w: Width)
    requires ks !in table && Place(table, ks, w).slot.Some?
    ensures var i := Place(table, ks, w).slot.value; i < |table| && i == i / w * w + i % w && i % w < w
  {
  }

  // No run of lookups ever writes into the row of a modifier key.
  lemma {:induction false} ModifierRowsAreKept(table: seq<KeySym>, wanted: seq<KeySym>, row: nat, column: nat, w: Width)
    requires column < w && row * w + w <= |table| && IsModifierKey(table[row * w])
    ensures PlaceAll(table, wanted, w)[row * w + column] == table[row * w + column]
    decreases |wanted|
  {
    if wanted != [] {
      var next := Place(table, wanted[0], w).table;
      FreeIs(table, row, column, w);
      FreeIs(table, row, 0, w);
      ModifierRowsAreKept(next, wanted[1..], row, column, w);
    }
  }

  // A lookup never overwrites an entry that is in use, and afterwards the keysym is found
  // exactly where the lookup said it is.
  lemma {:induction false} PlaceKeepsEntries(table: seq<KeySym>, ks: KeySym, w: Width)
    ensures var p := Place(table, ks, w);
            && |p.table| == |table|
            && (forall i | 0 <= i < |table| && table[i] != NO_SYMBOL :: p.table[i] == table[i])
            && (p.slot.Some? ==> Find(p.table, ks) == p.slot)
  {
    var p := Place(table, ks, w);
    if Find(table, ks).None? && p.slot.Some? {
      FindIsFirst(p.table, ks, p.slot.value);
    }
  }

  // ---------- whole runs of lookups ----------

  // One lookup of any other keysym leaves a resolved keysym where it is.
  lemma {:induction false} PlaceIsStable(table: seq<KeySym>, ks: KeySym, other: KeySym, w: Width)
    requires ks != NO_SYMBOL && Find(table, ks).Some?
    ensures Find(Place(table, other, w).table, ks) == Find(table, ks)
  {
    PlaceKeepsEntries(table, other, w);
    var i := Find(table, ks).value;
    FindIsFirst(Place(table, other, w).table, ks, i);
  }

  // Once a keysym is resolved it resolves to the same entry forever, whatever is looked up later,
  // and no entry that is in use is ever overwritten.
  lemma {:induction false} AllocationIsStable(table: seq<KeySym>, wanted: seq<KeySym>, ks: KeySym, w: Width)
    ensures forall i | 0 <= i < |table| && table[i] != NO_SYMBOL :: PlaceAll(table, wanted, w)[i] == table[i]
    ensures ks != NO_SYMBOL && Find(table, ks).Some? ==>
              && Place(PlaceAll(table, wanted, w), ks, w).slot == Find(table, ks)
              && Place(PlaceAll(table, wanted, w), ks, w).table == PlaceAll(table, wanted, w)
    decreases |wanted|
  {
    if wanted != [] {
      PlaceKeepsEntries(table, wanted[0], w);
      if ks != NO_SYMBOL && Find(table, ks).Some? {
        PlaceIsStable(table, ks, wanted[0], w);
      }
      AllocationIsStable(Place(table, wanted[0], w).table, wanted[1..], ks, w);
    }
  }

  // Claiming an entry for a keysym that is not a modifier uses up exactly that entry.
  lemma {:induction false} ClaimUsesOneEntry(table: seq<KeySym>, j: nat, ks: KeySym, n: nat, w: Width)
    requires j < |table| && Free(table, j, w) && n <= |table|
    requires ks != NO_SYMBOL && !IsModifierKey(ks)
    ensures FreeCount(table[j := ks], n, w) == FreeCount(table, n, w) - if j < n then 1 else 0
  {
    if n > 0 {
      ClaimUsesOneEntry(table, j, ks, n - 1, w);
    }
  }

  lemma {:induction false} FreeCountPositive(table: seq<KeySym>, n: nat, w: Width)
    requires n <= |table|
    ensures FreeCount(table, n, w) > 0 <==> exists i | 0 <= i < n :: Free(table, i, w)
  {
    if n > 0 {
      FreeCountPositive(table, n - 1, w);
      if Free(table, n - 1, w) {
        assert exists i | 0 <= i < n :: Free(table, i, w);
      }
    }
  }

  // Distinct new keysyms that are not modifiers can all be placed exactly when there are
  // at least as many free entries.
  lemma {:induction false} CapacityIsExact(table: seq<KeySym>, wanted: seq<KeySym>, w: Width)
    requires forall i, j | 0 <= i < j < |wanted| :: wanted[i] != wanted[j]
    requires forall ks | ks in wanted :: ks != NO_SYMBOL && !IsModifierKey(ks) && ks !in table
    ensures AllPlaced(table, wanted, w) <==> |wanted| <= FreeCount(table, |table|, w)
    decreases |wanted|
  {
    if wanted != [] {
      var ks := wanted[0];
      assert Find(table, ks).None? by { assert ks in wanted; }
      FreeCountPositive(table, |table|, w);
      if Place(table, ks, w).slot.Some? {
        var j := Place(table, ks, w).slot.value;
        ClaimUsesOneEntry(table, j, ks, |table|, w);
        forall k | k in wanted[1..] ensures k in wanted && k != ks && k !in table[j := ks] {
          var i :| 1 <= i < |wanted| && wanted[i] == k;
          assert wanted[0] != wanted[i];
        }
        CapacityIsExact(table[j := ks], wanted[1..], w);
      }
    }
  }

  // The condition on modifiers is needed: a modifier keysym that claims the unshifted column
  // closes the rest of its row.
  lemma {:induction false} ModifierClosesRow(ks: KeySym, other: KeySym)
    requires IsModifierKey(ks) && other != ks && other != NO_SYMBOL
    ensures var table := [NO_SYMBOL, NO_SYMBOL, NO_SYMBOL, NO_SYMBOL];
            FreeCount(table, 4, 4) == 4 && !AllPlaced(table, [ks, other], 4)
  {
    var table := [NO_SYMBOL, NO_SYMBOL, NO_SYMBOL, NO_SYMBOL];
    assert FreeCount(table, 1, 4) == 1 && FreeCount(table, 2, 4) == 2 && FreeCount(table, 3, 4) == 3;
    assert Find(table, ks).None?;
    assert Place(table, ks, 4) == Placement(table[0 := ks], Some(0));
    var next := table[0 := ks];
    assert Find(next, other).None?;
    assert forall i | 0 <= i < 4 :: !Free(next, i, 4);
    assert Place(next, other, 4).slot.None?;
    assert [ks, other][1..] == [other];
  }

  // ---------- widening a two-column table ----------

  // The four-column copy of a two-column table.
  function Widen(narrow: seq<KeySym>): (wide: seq<KeySym>)
    requires |narrow| % 2 == 0
    ensures |wide| == 2 * |narrow|
  {
    if narrow == [] then []
    else
      var n := |narrow| - 2;
      Widen(narrow[..n]) + [narrow[n], narrow[n + 1], NO_SYMBOL, NO_SYMBOL]
  }

  lemma {:induction false} WidenAt(narrow: seq<KeySym>, row: nat, column: nat)
    requires |narrow| % 2 == 0 && 2 * row < |narrow| && column < 4
    ensures Widen(narrow)[4 * row + column] == if column < 2 then narrow[2 * row + column] else NO_SYMBOL
    decreases |narrow|
  {
    var n := |narrow| - 2;
    if 2 * row < n {
      WidenAt(narrow[..n], row, column);
    }
  }

  // Widening moves no keysym: the first match stays in the same row and column.
  lemma {:induction false} WideningIsTransparent(narrow: seq<KeySym>, ks: KeySym)
    requires |narrow| % 2 == 0 && ks != NO_SYMBOL
    ensures Find(narrow, ks).None? <==> Find(Widen(narrow), ks).None?
    ensures Find(narrow, ks).Some? ==>
              var i, w := Find(narrow, ks).value, Find(Widen(narrow), ks).value;
              w / 4 == i / 2 && w % 4 == i % 2
  {
    var wide := Widen(narrow);
    var first := Find(narrow, ks);
    forall j | 0 <= j < |wide| && (first.Some? ==> j < first.value / 2 * 4 + first.value % 2) ensures wide[j] != ks {
      WidenAt(narrow, j / 4, j % 4);
      assert first.Some? && j % 4 < 2 ==> j / 4 * 2 + j % 4 < first.value;
    }
    if first.Some? {
      WidenAt(narrow, first.value / 2, first.value % 2);
      FindIsFirst(wide, ks, first.value / 2 * 4 + first.value % 2);
    }
  }
}
