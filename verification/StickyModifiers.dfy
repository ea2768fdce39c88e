// The sticky and locked modifier state of the on-screen keyboard. bthid_process_keypress in
// hidcd.c and kb_process_keypress in kb.c compute the same new state; they differ in who stores it.
// The C bit fields are sets of flags here; a button has at most one flag, so `^=` with a button's
// modifier flips one element.
module StickyModifiers {
  import opened Wrappers

  datatype Flag = Shift | Mod | Ctrl | Caps | Meta | Alt

  // What an ordinary key resets.
  const STICKY: set<Flag> := {Shift, Mod, Ctrl, Meta, Alt}

  function Flip(s: set<Flag>, f: Flag): set<Flag> {
    if f in s then s - {f} else s + {f}
  }

  datatype Sticky = Sticky(state: set<Flag>, locked: set<Flag>) {
    predicate Unset(f: Flag) { f !in state && f !in locked }
    predicate Set(f: Flag) { f in state && f !in locked }
    predicate Locked(f: Flag) { f in state && f in locked }

    // What every reachable state satisfies: locked modifiers are set, and Caps is never locked.
    predicate Consistent() {
      locked <= state - {Caps}
    }
  }

  // The new state that a call on a button with this modifier computes, and the locked set it stores.
  function Pressed(s: Sticky, modifier: Option<Flag>): Sticky {
    match modifier
    case Some(Caps) => Sticky(Flip(s.state, Caps), s.locked)
    case Some(f) =>
      if f in s.locked then Sticky(Flip(s.state, f), Flip(s.locked, f))
      else if f in s.state then Sticky(s.state, Flip(s.locked, f))
      else Sticky(Flip(s.state, f), s.locked)
    case None =>
      if s.state * STICKY != {} then Sticky(s.state * {Caps} + s.locked, s.locked) else s
  }

  lemma {:induction false} AnySticky(state: set<Flag>)
    ensures state * STICKY != {} <==>
              Shift in state || Mod in state || Ctrl in state || Meta in state || Alt in state
  {
    if state * STICKY != {} {
      var f :| f in state * STICKY;
    }
    assert forall f | f in STICKY && f in state :: f in state * STICKY;
  }

  // The press and repeat calls of the Bluetooth path drop the new state and keep the locked set.
  function Held(s: Sticky, modifier: Option<Flag>): Sticky {
    Sticky(s.state, Pressed(s, modifier).locked)
  }

  function HeldTimes(s: Sticky, modifier: Option<Flag>, n: nat): Sticky {
    if n == 0 then s else Held(HeldTimes(s, modifier, n - 1), modifier)
  }

  // Press, repeats, release: the release is the call whose new state is stored.
  function Clicked(s: Sticky, modifier: Option<Flag>, repeats: nat): Sticky {
    Pressed(HeldTimes(s, modifier, 1 + repeats), modifier)
  }

  function ClickAll(s: Sticky, buttons: seq<Option<Flag>>): Sticky
    decreases |buttons|
  {
    if buttons == [] then s else ClickAll(Clicked(s, buttons[0], 0), buttons[1..])
  }

  datatype StateCall = Hold(modifier: Option<Flag>) | Store(modifier: Option<Flag>)

  function Run(s: Sticky, calls: seq<StateCall>): Sticky
    decreases |calls|
  {
    if calls == [] then s
    else match calls[0]
      case Hold(m) => Run(Held(s, m), calls[1..])
      case Store(m) => Run(Pressed(s, m), calls[1..])
  }

  // In every reachable state, whatever calls were made, the locked modifiers are among the set
  // ones and exclude Caps.
  lemma {:induction false} AlwaysConsistent(s: Sticky, calls: seq<StateCall>)
    requires s.Consistent()
    ensures Run(s, calls).Consistent()
    decreases |calls|
  {
    if calls != [] {
      match calls[0]
      case Hold(m) => AlwaysConsistent(Held(s, m), calls[1..]);
      case Store(m) => AlwaysConsistent(Pressed(s, m), calls[1..]);
    }
  }

  // Storing the state of every call cycles a modifier through unset, set and locked, and leaves
  // all other modifiers alone.
  lemma {:induction false} DirectCycle(s: Sticky, f: Flag)
    requires f != Caps && s.Unset(f)
    ensures var s1 := Pressed(s, Some(f));
            var s2 := Pressed(s1, Some(f));
            && s1 == Sticky(s.state + {f}, s.locked) && s1.Set(f)
            && s2 == Sticky(s.state + {f}, s.locked + {f}) && s2.Locked(f)
            && Pressed(s2, Some(f)) == s
  {
  }

  // Each press or repeat call on a modifier that is set flips its lock.
  lemma {:induction false} HoldsFlipLock(s: Sticky, f: Flag, n: nat)
    requires f != Caps && f in s.state
    ensures HeldTimes(s, Some(f), n) == if n % 2 == 0 then s else Sticky(s.state, Flip(s.locked, f))
  {
    if n > 0 {
      HoldsFlipLock(s, f, n - 1);
      assert Flip(Flip(s.locked, f), f) == s.locked;
    }
  }

  lemma {:induction false} HoldsKeep(s: Sticky, modifier: Option<Flag>, n: nat)
    requires modifier.None? || modifier == Some(Caps) || s.Unset(modifier.value)
    ensures HeldTimes(s, modifier, n) == s
  {
    if n > 0 {
      HoldsKeep(s, modifier, n - 1);
    }
  }

  // The press/repeat/release protocol: an unset modifier becomes set; a set one is unset by an even
  // number of repeats and locked by an odd one; a locked one the other way round.
  lemma {:induction false} ClickByRepeats(s: Sticky, f: Flag, repeats: nat)
    requires f != Caps
    ensures s.Unset(f) ==> Clicked(s, Some(f), repeats) == Sticky(s.state + {f}, s.locked)
    ensures s.Set(f) ==>
              Clicked(s, Some(f), repeats) == if repeats % 2 == 0 then Sticky(s.state - {f}, s.locked)
                                              else Sticky(s.state, s.locked + {f})
    ensures s.Locked(f) ==>
              Clicked(s, Some(f), repeats) == if repeats % 2 == 0 then s
                                              else Sticky(s.state - {f}, s.locked - {f})
  {
    if s.Unset(f) {
      HoldsKeep(s, Some(f), 1 + repeats);
    } else if f in s.state {
      HoldsFlipLock(s, f, 1 + repeats);
      assert Flip(Flip(s.locked, f), f) == s.locked;
    }
  }

  // An ordinary click, however long it is held, leaves exactly Caps and the locked modifiers.
  lemma {:induction false} OrdinaryClickResets(s: Sticky, repeats: nat)
    requires s.Consistent()
    ensures Clicked(s, None, repeats) == Sticky(s.state * {Caps} + s.locked, s.locked)
  {
    HoldsKeep(s, None, 1 + repeats);
    if s.state * STICKY == {} {
      forall f | f in s.state ensures f == Caps {
        assert f !in s.state * STICKY;
      }
      assert s.locked == {};
      assert s.state * {Caps} + s.locked == s.state;
    }
  }

  // So on the Bluetooth path no run of clicks without repeats ever locks a modifier.
  lemma {:induction false} NoLockWithoutRepeats(s: Sticky, buttons: seq<Option<Flag>>)
    requires s.locked == {}
    ensures ClickAll(s, buttons).locked == {}
    decreases |buttons|
  {
    if buttons != [] {
      match buttons[0] {
        case None => HoldsKeep(s, None, 1);
        case Some(Caps) => HoldsKeep(s, Some(Caps), 1);
        case Some(f) => ClickByRepeats(s, f, 0);
      }
      NoLockWithoutRepeats(Clicked(s, buttons[0], 0), buttons[1..]);
    }
  }

  // A click on a Caps key, however long it is held, flips Caps and nothing else.
  lemma {:induction false} CapsClickFlips(s: Sticky, repeats: nat)
    ensures Clicked(s, Some(Caps), repeats) == Sticky(if Caps in s.state then s.state - {Caps} else s.state + {Caps}, s.locked)
  {
    HoldsKeep(s, Some(Caps), 1 + repeats);
  }

  // A click on any other key leaves Caps alone.
  lemma {:induction false} OtherClickKeepsCaps(s: Sticky, modifier: Option<Flag>, repeats: nat)
    requires s.Consistent() && modifier != Some(Caps)
    ensures Caps in Clicked(s, modifier, repeats).state <==> Caps in s.state
  {
    match modifier {
      case None => OrdinaryClickResets(s, repeats);
      case Some(f) => ClickByRepeats(s, f, repeats);
    }
  }
}
