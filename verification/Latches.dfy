// The left Alt, Ctrl and Shift latches of bthid_process_keypress and the key events it writes to
// the pipe. The source clears a latch with `&= (!BIT)`; `!BIT` is zero, so every latch goes. The
// comment above the loop of clears means `~BIT`. The way of clearing is a parameter here, and both
// are studied.
module Latches {

  // The modifier keys of a keyboard, as the pipe and the wire know them.
  datatype ModKey = LeftCtrl | LeftShift | LeftAlt | RightCtrl | RightShift | RightAlt

  const LEFT: set<ModKey> := {LeftCtrl, LeftShift, LeftAlt}

  // The keycodes of linux/input.h.
  const KEY_LEFTCTRL := 29
  const KEY_LEFTSHIFT := 42
  const KEY_RIGHTSHIFT := 54
  const KEY_LEFTALT := 56
  const KEY_RIGHTCTRL := 97
  const KEY_RIGHTALT := 100

  const EV_KEY := 1
  const QUIT_TYPE := 0xff
  const QUIT_CODE := 0xffff

  datatype Code = Modifier(key: ModKey) | Ordinary

  function Classify(code: int): Code {
    if code == KEY_LEFTALT then Modifier(LeftAlt)
    else if code == KEY_LEFTCTRL then Modifier(LeftCtrl)
    else if code == KEY_LEFTSHIFT then Modifier(LeftShift)
    else if code == KEY_RIGHTALT then Modifier(RightAlt)
    else if code == KEY_RIGHTCTRL then Modifier(RightCtrl)
    else if code == KEY_RIGHTSHIFT then Modifier(RightShift)
    else Ordinary
  }

  function CodeOf(m: ModKey): int {
    match m
    case LeftAlt => KEY_LEFTALT
    case LeftCtrl => KEY_LEFTCTRL
    case LeftShift => KEY_LEFTSHIFT
    case RightAlt => KEY_RIGHTALT
    case RightCtrl => KEY_RIGHTCTRL
    case RightShift => KEY_RIGHTSHIFT
  }

  // ---------- the pipe ----------

  datatype Event = Event(kind: int, code: int, value: int)

  // bthid_send: the code field of an input_event has 16 bits.
  function Send(key: int, value: int): Event {
    Event(if key == QUIT_CODE then QUIT_TYPE else EV_KEY, key % 0x10000, value)
  }

  // The modifier keys that are down on the wire after an event: a nonzero value is a down.
  function WireStep(wire: set<ModKey>, e: Event): set<ModKey> {
    if e.kind != EV_KEY then wire
    else match Classify(e.code)
      case Modifier(m) => if e.value != 0 then wire + {m} else wire - {m}
      case Ordinary => wire
  }

  function Wire(wire: set<ModKey>, events: seq<Event>): set<ModKey>
    decreases |events|
  {
    if events == [] then wire else Wire(WireStep(wire, events[0]), events[1..])
  }

  lemma {:induction false} WireAppend(wire: set<ModKey>, a: seq<Event>, b: seq<Event>)
    ensures Wire(wire, a + b) == Wire(Wire(wire, a), b)
    decreases |a|
  {
    if a == [] {
      assert a + b == b;
    } else {
      assert (a + b)[0] == a[0] && (a + b)[1..] == a[1..] + b;
      WireAppend(WireStep(wire, a[0]), a[1..], b);
    }
  }

  // ---------- bthid_process_keypress, the latches ----------

  datatype Clearing = AsWritten | OwnBit

  function Clear(how: Clearing, latches: set<ModKey>, m: ModKey): set<ModKey> {
    match how
    case AsWritten => {}
    case OwnBit => latches - {m}
  }

  datatype Outcome = Outcome(latches: set<ModKey>, events: seq<Event>)

  // One of the three if statements that follow an ordinary key.
  function Drop(how: Clearing, o: Outcome, m: ModKey): Outcome {
    if m in o.latches then Outcome(Clear(how, o.latches, m), o.events + [Send(CodeOf(m), 0)]) else o
  }

  // The effect of one call. On the quit key the process ends right after sending it.
  function Call(how: Clearing, latches: set<ModKey>, scancode: int, updown: int): Outcome {
    match Classify(scancode)
    case Modifier(m) =>
      if m in LEFT then
        if updown == 0 then Outcome(latches, [])
        else if m in latches then Outcome(Clear(how, latches, m), [Send(scancode, 0)])
        else Outcome(latches + {m}, [Send(scancode, 1)])
      else Others(how, latches, scancode, updown)
    case Ordinary => Others(how, latches, scancode, updown)
  }

  function Others(how: Clearing, latches: set<ModKey>, scancode: int, updown: int): Outcome {
    if scancode == QUIT_CODE then Outcome(latches, [Send(scancode, updown)])
    else Drop(how, Drop(how, Drop(how, Outcome(latches, [Send(scancode, updown)]), LeftAlt), LeftCtrl), LeftShift)
  }

  datatype KeyCall = KeyCall(scancode: int, updown: int) {
    // A scancode that survives the 16-bit code field and is not the quit key.
    predicate Valid() { 0 <= scancode < QUIT_CODE }

    // Whether the call is about this left modifier key.
    predicate IsLeft(m: ModKey) { m in LEFT && Classify(scancode) == Modifier(m) }
  }

  function CallAll(how: Clearing, latches: set<ModKey>, calls: seq<KeyCall>): Outcome
    decreases |calls|
  {
    if calls == [] then Outcome(latches, [])
    else
      var first := Call(how, latches, calls[0].scancode, calls[0].updown);
      var rest := CallAll(how, first.latches, calls[1..]);
      Outcome(rest.latches, first.events + rest.events)
  }

  // ---------- latch and wire ----------

  predicate Several(latches: set<ModKey>) {
    exists a, b | a in latches && b in latches :: a != b
  }

  // What the three clears take off the wire: every latch, or with the clears as written only the
  // first in the order Alt, Ctrl, Shift.
  function Freed(how: Clearing, latches: set<ModKey>): set<ModKey> {
    if how == OwnBit then latches
    else if LeftAlt in latches then {LeftAlt} else if LeftCtrl in latches then {LeftCtrl} else latches
  }

  // The call clears a latch while another one is set too.
  predicate ClearsAmongSeveral(latches: set<ModKey>, c: KeyCall) {
    && Several(latches)
    && match Classify(c.scancode)
       case Modifier(m) => if m in LEFT then c.updown != 0 && m in latches else true
       case Ordinary => true
  }

  // The scancode is no left key's, but what the 16-bit code field keeps of it is this left key's.
  predicate Poses(c: KeyCall, m: ModKey) {
    && m in LEFT && Classify(c.scancode % 0x10000) == Modifier(m) && Classify(c.scancode) != Modifier(m)
  }

  // The call makes latches and wire part: it clears among several, as written, or its scancode poses
  // as a left key that no latch knows of.
  predicate Parts(how: Clearing, latches: set<ModKey>, c: KeyCall) {
    if c.scancode == QUIT_CODE then false
    else if Poses(c, LeftAlt) then PartsPosing(how, latches, LeftAlt, c.updown)
    else if Poses(c, LeftCtrl) then PartsPosing(how, latches, LeftCtrl, c.updown)
    else if Poses(c, LeftShift) then PartsPosing(how, latches, LeftShift, c.updown)
    else how == AsWritten && ClearsAmongSeveral(latches, c)
  }

  // A down leaves the key on the wire unless a clear takes just that key off; an up leaves what the
  // clears miss.
  predicate PartsPosing(how: Clearing, latches: set<ModKey>, m: ModKey, updown: int) {
    if updown != 0 then m !in latches || (how == AsWritten && Several(latches))
    else how == AsWritten && Several(if m in Freed(how, latches) then latches else latches - {m})
  }

  lemma {:induction false} CodesRoundTrip(m: ModKey)
    ensures Classify(CodeOf(m)) == Modifier(m) && 0 < CodeOf(m) < 256
  {
  }

  // The keycodes of linux/input.h.
  lemma {:induction false} KeycodesAre()
    ensures Classify(29) == Modifier(LeftCtrl) && Classify(42) == Modifier(LeftShift) && Classify(56) == Modifier(LeftAlt)
    ensures Classify(97) == Modifier(RightCtrl) && Classify(54) == Modifier(RightShift) && Classify(100) == Modifier(RightAlt)
    ensures forall c | c !in {29, 42, 54, 56, 97, 100} :: Classify(c) == Ordinary
  {
  }

  lemma {:induction false} WireOne(wire: set<ModKey>, e: Event)
    ensures Wire(wire, [e]) == WireStep(wire, e)
  {
    assert [e][1..] == [];
  }

  // A drop releases on the wire exactly the key whose latch it clears.
  lemma {:induction false} DropOnWire(how: Clearing, o: Outcome, m: ModKey, wire: set<ModKey>)
    ensures Wire(wire, Drop(how, o, m).events)
            == if m in o.latches then Wire(wire, o.events) - {m} else Wire(wire, o.events)
  {
    if m in o.latches {
      var up := Send(CodeOf(m), 0);
      CodesRoundTrip(m);
      WireAppend(wire, o.events, [up]);
      WireOne(Wire(wire, o.events), up);
    }
  }

  // What a key other than the three left ones leaves: no latch, and on the wire the key's own effect
  // minus what was released. The quit key leaves all as it is.
  lemma {:induction false} OthersOnWire(how: Clearing, latches: set<ModKey>, c: KeyCall, wire: set<ModKey>)
    requires latches <= LEFT
    requires forall m | m in LEFT :: !c.IsLeft(m)
    ensures var o := Call(how, latches, c.scancode, c.updown);
            if c.scancode == QUIT_CODE then o.latches == latches && Wire(wire, o.events) == wire
            else o.latches == {} && Wire(wire, o.events) == WireStep(wire, Send(c.scancode, c.updown)) - Freed(how, latches)
  {
    var o0 := Outcome(latches, [Send(c.scancode, c.updown)]);
    var o1 := Drop(how, o0, LeftAlt);
    var o2 := Drop(how, o1, LeftCtrl);
    WireOne(wire, o0.events[0]);
    DropOnWire(how, o0, LeftAlt, wire);
    DropOnWire(how, o1, LeftCtrl, wire);
    DropOnWire(how, o2, LeftShift, wire);
    assert latches <= {LeftAlt, LeftCtrl, LeftShift};
    assert Others(how, latches, c.scancode, c.updown) == Call(how, latches, c.scancode, c.updown) by {
      assert Classify(c.scancode).Modifier? ==> !c.IsLeft(Classify(c.scancode).key);
    }
  }

  // What a left modifier key does.
  lemma {:induction false} LeftOnWire(how: Clearing, latches: set<ModKey>, c: KeyCall, wire: set<ModKey>, m: ModKey)
    requires Classify(c.scancode) == Modifier(m) && m in LEFT
    ensures var o := Call(how, latches, c.scancode, c.updown);
            Wire(wire, o.events) == if c.updown == 0 then wire else if m in latches then wire - {m} else wire + {m}
  {
    WireOne(wire, Send(c.scancode, 0));
    WireOne(wire, Send(c.scancode, 1));
    assert c.scancode == CodeOf(m);
  }

  // One call from agreement: the latches are among the left keys that are down on the wire, and
  // they are all of them, unless the call makes them part.
  lemma {:induction false} CallLatchVersusWire(how: Clearing, latches: set<ModKey>, wire: set<ModKey>, c: KeyCall)
    requires latches <= LEFT && latches == wire * LEFT
    ensures var o := Call(how, latches, c.scancode, c.updown);
            && o.latches <= Wire(wire, o.events) * LEFT
            && (o.latches == Wire(wire, o.events) * LEFT <==> !Parts(how, latches, c))
  {
    if m :| m in LEFT && c.IsLeft(m) {
      LeftOnWire(how, latches, c, wire, m);
      LeftAgreement(how, latches, wire, c, m);
    } else {
      OthersOnWire(how, latches, c, wire);
      if m :| m in LEFT && Poses(c, m) {
        PosingAgreement(how, latches, wire, c, m);
      } else if c.scancode != QUIT_CODE {
        OthersAgreement(how, latches, wire, c);
      }
    }
  }

  // The clears as written take every latch off exactly if there is at most one.
  lemma {:induction false} FreesAll(latches: set<ModKey>)
    requires latches <= LEFT
    ensures latches <= Freed(AsWritten, latches) <==> !Several(latches)
  {
    assert latches <= {LeftAlt, LeftCtrl, LeftShift};
    if Several(latches) {
      var a, b :| a in latches && b in latches && a != b;
      assert LeftAlt in latches || LeftCtrl in latches;
      assert a !in Freed(AsWritten, latches) || b !in Freed(AsWritten, latches);
    } else {
      assert forall x, y | x in latches && y in latches :: x == y;
    }
  }

  lemma {:induction false} PosingAgreement(how: Clearing, latches: set<ModKey>, wire: set<ModKey>, c: KeyCall, m: ModKey)
    requires latches <= LEFT && latches == wire * LEFT
    requires Poses(c, m) && c.scancode != QUIT_CODE
    ensures {} == (WireStep(wire, Send(c.scancode, c.updown)) - Freed(how, latches)) * LEFT <==> !Parts(how, latches, c)
  {
    var own := WireStep(wire, Send(c.scancode, c.updown));
    var freed := Freed(how, latches);
    assert (own - freed) * LEFT == own * LEFT - freed;
    FreesAll(latches);
    if c.updown != 0 {
      assert own * LEFT == latches + {m};
      if m in latches {
        assert latches + {m} == latches;
      } else {
        assert m in (latches + {m}) - freed;
      }
    } else {
      assert own * LEFT == latches - {m};
      FreesAll(latches - {m});
      if m in freed {
        assert latches - {m} - freed == latches - freed;
      } else {
        assert latches <= {LeftAlt, LeftCtrl, LeftShift};
        assert how == AsWritten ==> Freed(how, latches - {m}) == freed;
      }
    }
    assert Parts(how, latches, c) == PartsPosing(how, latches, m, c.updown);
  }

  lemma {:induction false} LeftAgreement(how: Clearing, latches: set<ModKey>, wire: set<ModKey>, c: KeyCall,
          m: ModKey)
    requires latches <= LEFT && latches == wire * LEFT
    requires Classify(c.scancode) == Modifier(m) && m in LEFT
    ensures var after := Call(how, latches, c.scancode, c.updown).latches;
            var now := (if c.updown == 0 then wire else if m in latches then wire - {m} else wire + {m}) * LEFT;
            && after <= now
            && (after == now <==> how == OwnBit || !ClearsAmongSeveral(latches, c))
  {
    if c.updown != 0 && m in latches && how == AsWritten {
      if Several(latches) {
        var a, b :| a in latches && b in latches && a != b;
        var other := if a == m then b else a;
        assert other in (wire - {m}) * LEFT;
      } else {
        assert forall x | x in latches :: x == m;
        assert latches == {m} && (wire - {m}) * LEFT == {};
      }
    }
  }

  lemma {:induction false} OthersAgreement(how: Clearing, latches: set<ModKey>, wire: set<ModKey>, c: KeyCall)
    requires latches <= LEFT && latches == wire * LEFT && c.scancode != QUIT_CODE
    requires forall m | m in LEFT :: !c.IsLeft(m) && !Poses(c, m)
    ensures {} == (WireStep(wire, Send(c.scancode, c.updown)) - Freed(how, latches)) * LEFT
            <==> how == OwnBit || !ClearsAmongSeveral(latches, c)
  {
    var own := WireStep(wire, Send(c.scancode, c.updown));
    assert forall m | m in LEFT :: Classify(c.scancode) != Modifier(m) by {
      assert forall m | m in LEFT :: !c.IsLeft(m);
    }
    assert forall m | m in LEFT :: Classify(c.scancode % 0x10000) != Modifier(m) by {
      assert forall m | m in LEFT :: !Poses(c, m);
    }
    assert own * LEFT == wire * LEFT;
    FreesAll(latches);
    assert (own - Freed(how, latches)) * LEFT == latches - Freed(how, latches);
  }

  // Once latches and wire part, the latches stay among the keys down on the wire, whatever follows.
  lemma {:induction false} CallKeepsLatchesDown(how: Clearing, latches: set<ModKey>, wire: set<ModKey>, c: KeyCall)
    requires latches <= LEFT && latches <= wire
    ensures var o := Call(how, latches, c.scancode, c.updown);
            o.latches <= LEFT && o.latches <= Wire(wire, o.events)
  {
    if m :| m in LEFT && c.IsLeft(m) {
      LeftOnWire(how, latches, c, wire, m);
    } else {
      OthersOnWire(how, latches, c, wire);
    }
  }

  // No call of the run makes latches and wire part.
  predicate NeverParts(how: Clearing, latches: set<ModKey>, calls: seq<KeyCall>)
    decreases |calls|
  {
    calls == [] ||
    (!Parts(how, latches, calls[0])
     && NeverParts(how, Call(how, latches, calls[0].scancode, calls[0].updown).latches, calls[1..]))
  }

  // Latch versus wire over whole runs, from no latch and nothing held: after every run of calls the
  // latches are among the left keys down on the wire, and they are all of them if no call made them
  // part.
  lemma {:induction false} LatchVersusWire(how: Clearing, latches: set<ModKey>, wire: set<ModKey>,
          calls: seq<KeyCall>)
    requires latches <= LEFT && latches <= wire
    ensures var o := CallAll(how, latches, calls);
            && o.latches <= LEFT && o.latches <= Wire(wire, o.events)
            && (latches == wire * LEFT && NeverParts(how, latches, calls) ==> o.latches == Wire(wire, o.events) * LEFT)
    decreases |calls|
  {
    if calls != [] {
      var c := calls[0];
      var first := Call(how, latches, c.scancode, c.updown);
      CallKeepsLatchesDown(how, latches, wire, c);
      if latches == wire * LEFT {
        CallLatchVersusWire(how, latches, wire, c);
      }
      LatchVersusWire(how, first.latches, Wire(wire, first.events), calls[1..]);
      WireAppend(wire, first.events, CallAll(how, first.latches, calls[1..]).events);
    }
  }

  // With the scancodes of real keys, only clears as written make them part.
  lemma {:induction false} PartsPlainly(how: Clearing, latches: set<ModKey>, c: KeyCall)
    requires c.Valid()
    ensures Parts(how, latches, c) <==> how == AsWritten && ClearsAmongSeveral(latches, c)
  {
    assert c.scancode % 0x10000 == c.scancode;
  }

  // The latches are all of the left keys down on the wire.
  predicate Agrees(how: Clearing, latches: set<ModKey>, wire: set<ModKey>, calls: seq<KeyCall>) {
    var o := CallAll(how, latches, calls);
    o.latches == Wire(wire, o.events) * LEFT
  }

  lemma {:induction false} AgreesCons(how: Clearing, latches: set<ModKey>, wire: set<ModKey>, c: KeyCall,
          rest: seq<KeyCall>)
    ensures var first := Call(how, latches, c.scancode, c.updown);
            Agrees(how, latches, wire, [c] + rest) <==> Agrees(how, first.latches, Wire(wire, first.events), rest)
  {
    var first := Call(how, latches, c.scancode, c.updown);
    assert ([c] + rest)[0] == c && ([c] + rest)[1..] == rest;
    WireAppend(wire, first.events, CallAll(how, first.latches, rest).events);
  }

  // For both ways of clearing: the latches and the wire agree at every point of a run from agreement
  // exactly when no call of the run makes them part.
  lemma {:induction false} AgreementExactly(how: Clearing, latches: set<ModKey>, wire: set<ModKey>, calls: seq<KeyCall>)
    requires latches <= LEFT && latches == wire * LEFT
    ensures NeverParts(how, latches, calls) <==> forall n | 0 <= n <= |calls| :: Agrees(how, latches, wire, calls[..n])
    decreases |calls|
  {
    assert calls[..0] == [] && Agrees(how, latches, wire, []);
    if calls != [] {
      var c, rest := calls[0], calls[1..];
      var first := Call(how, latches, c.scancode, c.updown);
      var wire' := Wire(wire, first.events);
      CallLatchVersusWire(how, latches, wire, c);
      forall n | 1 <= n <= |calls|
        ensures Agrees(how, latches, wire, calls[..n]) <==> Agrees(how, first.latches, wire', rest[..n - 1])
      {
        assert calls[..n] == [c] + rest[..n - 1];
        AgreesCons(how, latches, wire, c, rest[..n - 1]);
      }
      assert rest[..0] == [] && (Agrees(how, first.latches, wire', []) <==> !Parts(how, latches, c));
      if !Parts(how, latches, c) {
        AgreementExactly(how, first.latches, wire', rest);
        assert forall n | 0 <= n <= |rest| ::
            Agrees(how, first.latches, wire', rest[..n]) <==> Agrees(how, latches, wire, calls[..n + 1]);
      } else {
        assert !Agrees(how, latches, wire, calls[..1]);
      }
    }
  }

  // What a call puts into the pipe, event by event. The key itself comes first, with 16 bits of its
  // code, and then the ups of the left keys that are let go, Alt before Ctrl before Shift; as written,
  // only the first. The quit key goes as a quit event and nothing follows it.
  lemma {:induction false} EventsAre(how: Clearing, latches: set<ModKey>, c: KeyCall)
    requires latches <= LEFT && c.scancode !in {29, 42, 56}
    ensures var (events, alt, ctrl, shift) := (Call(how, latches, c.scancode, c.updown).events,
                                               [Event(1, 56, 0)], [Event(1, 29, 0)], [Event(1, 42, 0)]);
            if c.scancode == 0xffff then events == [Event(0xff, 0xffff, c.updown)]
            else if how == AsWritten then
              events == [Event(1, c.scancode % 0x10000, c.updown)]
                        + (if LeftAlt in latches then alt else if LeftCtrl in latches then ctrl
                           else if LeftShift in latches then shift else [])
            else
              events == [Event(1, c.scancode % 0x10000, c.updown)] + (if LeftAlt in latches then alt else [])
                        + (if LeftCtrl in latches then ctrl else []) + (if LeftShift in latches then shift else [])
  {
    assert Classify(c.scancode).Modifier? ==> Classify(c.scancode).key !in LEFT;
  }

  // And a call for one of those three keys: one event that toggles it, when it goes down.
  lemma {:induction false} ToggleEventsAre(how: Clearing, latches: set<ModKey>, c: KeyCall)
    requires c.scancode in {29, 42, 56}
    ensures var m := if c.scancode == 29 then LeftCtrl else if c.scancode == 42 then LeftShift else LeftAlt;
            Call(how, latches, c.scancode, c.updown).events
            == if c.updown == 0 then [] else [Event(1, c.scancode, if m in latches then 0 else 1)]
  {
  }

  // A failing input for the clears that remove their own bit: scancode 65592 is left Alt to the pipe
  // and an ordinary key to the latches.
  lemma {:induction false} PosingKey()
    ensures var o := Call(OwnBit, {}, 65592, 1); o.latches == {} && Wire({}, o.events) == {LeftAlt}
  {
    OthersOnWire(OwnBit, {}, KeyCall(65592, 1), {});
  }
}
