// Keys held long enough to repeat, from their calls to what the host reads. A held left modifier key
// toggles at every repeat. A held ordinary key is a second key press to the host if a latch was set:
// the reports of the drops do not name the key, so the first repeat brings it back, and by then the
// dropped modifiers are gone.
module HeldKeys {
  import opened Wrappers
  import opened Latches
  import opened BootDevice
  import opened Pipeline
  import DeviceRuns

  // A press, some repeats and a release.
  datatype Hold = Hold(scancode: int, repeats: nat)

  function HoldCalls(h: Hold): seq<KeyCall> {
    [KeyCall(h.scancode, 1)] + Repeated(KeyCall(h.scancode, 2), h.repeats) + [KeyCall(h.scancode, 0)]
  }

  function CallsOfHolds(holds: seq<Hold>): seq<KeyCall> {
    if holds == [] then [] else HoldCalls(holds[0]) + CallsOfHolds(holds[1..])
  }

  // ---------- what holds do to the latches and to the wire ----------

  datatype Keys = Keys(latches: set<ModKey>, wire: set<ModKey>)

  function Toggle(how: Clearing, k: Keys, m: ModKey): Keys {
    if m in k.latches then Keys(Clear(how, k.latches, m), k.wire - {m}) else Keys(k.latches + {m}, k.wire + {m})
  }

  function Toggles(how: Clearing, k: Keys, m: ModKey, n: nat): Keys {
    if n == 0 then k else Toggle(how, Toggles(how, k, m, n - 1), m)
  }

  // A left modifier key toggles at its press and at every repeat. Any other key leaves no latch.
  function AfterHold(how: Clearing, k: Keys, h: Hold): Keys {
    match Classify(h.scancode)
    case Modifier(m) =>
      if m in LEFT then Toggles(how, k, m, 1 + h.repeats) else Keys({}, k.wire - Freed(how, k.latches))
    case Ordinary => Keys({}, k.wire - Freed(how, k.latches))
  }

  // What the host makes of a hold: the key under the modifiers on the wire and, if it repeats and a
  // latch was set, the key once more under the modifiers that the clears left there.
  function HoldTyping(usages: Usages, how: Clearing, k: Keys, h: Hold): seq<Typed>
    requires 0 <= h.scancode < 256
  {
    Typing(usages, k.wire, h.scancode)
    + if k.latches != {} && h.repeats > 0 then Typing(usages, k.wire - Freed(how, k.latches), h.scancode) else []
  }

  predicate InRange(holds: seq<Hold>) {
    forall i | 0 <= i < |holds| :: 0 <= holds[i].scancode < 256
  }

  function HostSeesHolds(usages: Usages, how: Clearing, k: Keys, holds: seq<Hold>): seq<Typed>
    requires InRange(holds)
    decreases |holds|
  {
    if holds == [] then []
    else HoldTyping(usages, how, k, holds[0]) + HostSeesHolds(usages, how, AfterHold(how, k, holds[0]), holds[1..])
  }

  // ---------- the calls of a hold ----------

  lemma {:induction false} CallOne(how: Clearing, latches: set<ModKey>, c: KeyCall)
    ensures CallAll(how, latches, [c]) == Call(how, latches, c.scancode, c.updown)
  {
    assert [c][1..] == [];
    var first := Call(how, latches, c.scancode, c.updown);
    assert CallAll(how, first.latches, []).events == [];
    assert first.events + [] == first.events;
  }

  // The press and some repeats.
  function HeldDown(how: Clearing, latches: set<ModKey>, scancode: int, repeats: nat): Outcome {
    CallAll(how, latches, [KeyCall(scancode, 1)] + Repeated(KeyCall(scancode, 2), repeats))
  }

  lemma {:induction false} JustPressed(how: Clearing, latches: set<ModKey>, scancode: int)
    ensures HeldDown(how, latches, scancode, 0) == Call(how, latches, scancode, 1)
  {
    assert [KeyCall(scancode, 1)] + Repeated(KeyCall(scancode, 2), 0) == [KeyCall(scancode, 1)];
    CallOne(how, latches, KeyCall(scancode, 1));
  }

  lemma {:induction false} OneMoreRepeat(how: Clearing, latches: set<ModKey>, scancode: int, k: nat)
    ensures var o := HeldDown(how, latches, scancode, k);
            var next := Call(how, o.latches, scancode, 2);
            HeldDown(how, latches, scancode, k + 1) == Outcome(next.latches, o.events + next.events)
  {
    var c := KeyCall(scancode, 2);
    var calls := [KeyCall(scancode, 1)] + Repeated(c, k);
    RepeatedAtEnd(c, k);
    assert [KeyCall(scancode, 1)] + Repeated(c, k + 1) == calls + [c];
    CallAllAppend(how, latches, calls, [c]);
    CallOne(how, CallAll(how, latches, calls).latches, c);
  }

  lemma {:induction false} AtRelease(how: Clearing, latches: set<ModKey>, h: Hold)
    ensures var o := HeldDown(how, latches, h.scancode, h.repeats);
            var up := Call(how, o.latches, h.scancode, 0);
            CallAll(how, latches, HoldCalls(h)) == Outcome(up.latches, o.events + up.events)
  {
    var calls := [KeyCall(h.scancode, 1)] + Repeated(KeyCall(h.scancode, 2), h.repeats);
    CallAllAppend(how, latches, calls, [KeyCall(h.scancode, 0)]);
    CallOne(how, CallAll(how, latches, calls).latches, KeyCall(h.scancode, 0));
  }

  // ---------- left modifier keys ----------

  predicate AllQuietEvents(events: seq<Event>) {
    forall i | 0 <= i < |events| :: QuietEvent(events[i])
  }

  lemma {:induction false} ToggleCall(how: Clearing, k: Keys, c: KeyCall, m: ModKey)
    requires c.IsLeft(m) && c.updown != 0
    ensures var o := Call(how, k.latches, c.scancode, c.updown);
            Keys(o.latches, Wire(k.wire, o.events)) == Toggle(how, k, m) && AllQuietEvents(o.events)
  {
    LeftOnWire(how, k.latches, c, k.wire, m);
  }

  lemma {:induction false} LeftHeldDown(how: Clearing, k: Keys, scancode: int, m: ModKey, repeats: nat)
    requires KeyCall(scancode, 1).IsLeft(m)
    ensures var o := HeldDown(how, k.latches, scancode, repeats);
            Keys(o.latches, Wire(k.wire, o.events)) == Toggles(how, k, m, 1 + repeats) && AllQuietEvents(o.events)
  {
    if repeats == 0 {
      JustPressed(how, k.latches, scancode);
      ToggleCall(how, k, KeyCall(scancode, 1), m);
      assert Toggles(how, k, m, 0) == k;
    } else {
      LeftHeldDown(how, k, scancode, m, repeats - 1);
      OneMoreRepeat(how, k.latches, scancode, repeats - 1);
      var o := HeldDown(how, k.latches, scancode, repeats - 1);
      var next := Call(how, o.latches, scancode, 2);
      ToggleCall(how, Keys(o.latches, Wire(k.wire, o.events)), KeyCall(scancode, 2), m);
      WireAppend(k.wire, o.events, next.events);
    }
  }

  lemma {:induction false} LeftHold(how: Clearing, k: Keys, h: Hold, m: ModKey)
    requires KeyCall(h.scancode, 1).IsLeft(m)
    ensures var o := CallAll(how, k.latches, HoldCalls(h));
            Keys(o.latches, Wire(k.wire, o.events)) == AfterHold(how, k, h) && AllQuietEvents(o.events)
  {
    LeftHeldDown(how, k, h.scancode, m, h.repeats);
    AtRelease(how, k.latches, h);
    var o := HeldDown(how, k.latches, h.scancode, h.repeats);
    assert Call(how, o.latches, h.scancode, 0) == Outcome(o.latches, []);
    assert o.events + [] == o.events;
  }

  // Toggling twice is nothing, if every clear removes its own bit.
  lemma {:induction false} EvenToggles(k: Keys, m: ModKey, n: nat)
    requires k.latches == k.wire * LEFT && m in LEFT
    ensures Toggles(OwnBit, k, m, n) == if n % 2 == 0 then k else Toggle(OwnBit, k, m)
  {
    if n > 0 {
      EvenToggles(k, m, n - 1);
      if n % 2 == 0 {
        var once := Toggle(OwnBit, k, m);
        if m in k.latches {
          assert once.latches + {m} == k.latches && once.wire + {m} == k.wire;
        } else {
          assert once.latches - {m} == k.latches && once.wire - {m} == k.wire;
        }
      }
    }
  }

  // ---------- all other keys ----------

  // The repeats of a key that is no left modifier key, and its release.
  function Rest(scancode: int, repeats: nat): seq<Event> {
    Repeated(Send(scancode, 2), repeats) + [Send(scancode, 0)]
  }

  predicate IsOther(scancode: int) {
    scancode != QUIT_CODE && forall m | m in LEFT :: !KeyCall(scancode, 1).IsLeft(m)
  }

  lemma {:induction false} OtherCall(how: Clearing, scancode: int, updown: int)
    requires IsOther(scancode)
    ensures Call(how, {}, scancode, updown) == Outcome({}, [Send(scancode, updown)])
  {
    assert Classify(scancode).Modifier? && Classify(scancode).key in LEFT ==> KeyCall(scancode, 1).IsLeft(Classify(scancode).key);
  }

  lemma {:induction false} OtherHeldDown(how: Clearing, latches: set<ModKey>, scancode: int, repeats: nat)
    requires IsOther(scancode) && latches <= LEFT
    ensures HeldDown(how, latches, scancode, repeats)
            == Outcome({}, Call(how, latches, scancode, 1).events + Repeated(Send(scancode, 2), repeats))
  {
    var press := Call(how, latches, scancode, 1).events;
    if repeats == 0 {
      JustPressed(how, latches, scancode);
      assert forall m | m in LEFT :: !KeyCall(scancode, 1).IsLeft(m);
      OthersOnWire(how, latches, KeyCall(scancode, 1), {});
      assert press + Repeated(Send(scancode, 2), 0) == press;
    } else {
      OtherHeldDown(how, latches, scancode, repeats - 1);
      OneMoreRepeat(how, latches, scancode, repeats - 1);
      OtherCall(how, scancode, 2);
      RepeatedAtEnd(Send(scancode, 2), repeats - 1);
      Regrouped(press, Repeated(Send(scancode, 2), repeats - 1), [Send(scancode, 2)]);
    }
  }

  // The events of a hold: those of the press, and then repeats and the release.
  lemma {:induction false} HoldEvents(how: Clearing, latches: set<ModKey>, h: Hold)
    requires IsOther(h.scancode) && latches <= LEFT
    ensures CallAll(how, latches, HoldCalls(h))
            == Outcome({}, Call(how, latches, h.scancode, 1).events + Rest(h.scancode, h.repeats))
  {
    OtherHeldDown(how, latches, h.scancode, h.repeats);
    AtRelease(how, latches, h);
    OtherCall(how, h.scancode, 0);
    Regrouped(Call(how, latches, h.scancode, 1).events, Repeated(Send(h.scancode, 2), h.repeats), [Send(h.scancode, 0)]);
  }

  // The repeats change nothing on the wire that the press did not; the release takes it back.
  lemma {:induction false} RestOnWire(wire: set<ModKey>, scancode: int, repeats: nat)
    requires WireStep(wire, Send(scancode, 2)) == wire
    ensures Wire(wire, Rest(scancode, repeats)) == WireStep(wire, Send(scancode, 0))
  {
    if repeats == 0 {
      assert Rest(scancode, 0) == [Send(scancode, 0)];
      WireOne(wire, Send(scancode, 0));
    } else {
      RestOnWire(wire, scancode, repeats - 1);
      assert Rest(scancode, repeats) == [Send(scancode, 2)] + Rest(scancode, repeats - 1);
      WireAppend(wire, [Send(scancode, 2)], Rest(scancode, repeats - 1));
      WireOne(wire, Send(scancode, 2));
    }
  }

  lemma {:induction false} NotLeft(scancode: int)
    requires IsOther(scancode)
    ensures Classify(scancode).Modifier? ==> Classify(scancode).key !in LEFT
  {
    assert forall m | m in LEFT :: !KeyCall(scancode, 1).IsLeft(m);
  }

  lemma {:induction false} FreedSome(how: Clearing, latches: set<ModKey>)
    ensures Freed(how, latches) <= latches && (Freed(how, latches) == {} <==> latches == {})
  {
  }

  // The wire while a key that is no left modifier key is held, and after it.
  lemma {:induction false} OtherStep(wire: set<ModKey>, freed: set<ModKey>, scancode: Scancode)
    requires IsOther(scancode) && wire <= LEFT && freed <= LEFT
    ensures var down := WireStep(wire, Send(scancode, 1)) - freed;
            WireStep(down, Send(scancode, 2)) == down && WireStep(down, Send(scancode, 0)) == wire - freed
  {
    NotLeft(scancode);
    assert scancode % 0x10000 == scancode;
    match Classify(scancode)
    case Modifier(m) =>
      assert wire + {m} - freed + {m} == wire + {m} - freed;
      assert wire + {m} - freed - {m} == wire - freed;
    case Ordinary =>
  }

  lemma {:induction false} OtherHold(how: Clearing, k: Keys, h: Hold)
    requires 0 <= h.scancode < 256 && IsOther(h.scancode) && k.latches <= LEFT && k.wire <= LEFT
    ensures var o := CallAll(how, k.latches, HoldCalls(h));
            o.latches == {} && Wire(k.wire, o.events) == k.wire - Freed(how, k.latches)
  {
    var sc := h.scancode;
    assert forall m | m in LEFT :: !KeyCall(sc, 1).IsLeft(m);
    OthersOnWire(how, k.latches, KeyCall(sc, 1), k.wire);
    HoldEvents(how, k.latches, h);
    var press := Call(how, k.latches, sc, 1).events;
    WireAppend(k.wire, press, Rest(sc, h.repeats));
    FreedSome(how, k.latches);
    OtherStep(k.wire, Freed(how, k.latches), sc);
    RestOnWire(Wire(k.wire, press), sc, h.repeats);
  }

  // What a hold does to the latches and to the wire: the latched keys stay down there.
  lemma {:induction false} HoldEffect(how: Clearing, k: Keys, h: Hold)
    requires 0 <= h.scancode < 256 && k.latches <= k.wire <= LEFT
    ensures var o := CallAll(how, k.latches, HoldCalls(h));
            Keys(o.latches, Wire(k.wire, o.events)) == AfterHold(how, k, h)
    ensures AfterHold(how, k, h).latches <= AfterHold(how, k, h).wire <= LEFT
  {
    if m :| m in LEFT && KeyCall(h.scancode, 1).IsLeft(m) {
      LeftHold(how, k, h, m);
      TogglesStay(how, k, m, 1 + h.repeats);
    } else {
      OtherHold(how, k, h);
      NotLeft(h.scancode);
    }
  }

  lemma {:induction false} TogglesStay(how: Clearing, k: Keys, m: ModKey, n: nat)
    requires m in LEFT && k.latches <= k.wire <= LEFT
    ensures Toggles(how, k, m, n).latches <= Toggles(how, k, m, n).wire <= LEFT
  {
    if n > 0 {
      TogglesStay(how, k, m, n - 1);
    }
  }

  // ---------- the reports of a hold ----------

  // The device's core after a repeat of an ordinary key differs in the press count only.
  lemma {:induction false} RepeatReports(usages: Usages, c: Core, scancode: Scancode, repeats: nat)
    requires c.Valid() && Classify(scancode).Ordinary?
    ensures var f := Feed(usages, c, Repeated(Send(scancode, 2), repeats));
            && f.core == c.(press := c.press + repeats)
            && f.reports == Repeated(Report(c.modifiers, UsageOf(usages, scancode)), repeats)
    decreases repeats
  {
    if repeats > 0 {
      RepeatedRest(Send(scancode, 2), repeats);
      RepeatReports(usages, c.(press := c.press + 1), scancode, repeats - 1);
    }
  }

  // The repeats and the release, as reports.
  lemma {:induction false} RestReports(usages: Usages, c: Core, scancode: Scancode, repeats: nat)
    requires c.Valid() && Classify(scancode).Ordinary?
    ensures Feed(usages, c, Rest(scancode, repeats)).reports
            == Repeated(Report(c.modifiers, UsageOf(usages, scancode)), repeats) + [Report(c.modifiers, 0)]
  {
    var middle, up := Repeated(Send(scancode, 2), repeats), Send(scancode, 0);
    FeedAppend(usages, c, middle, [up]);
    RepeatReports(usages, c, scancode, repeats);
    FeedOne(usages, Feed(usages, c, middle).core, up);
  }

  lemma {:induction false} PressFed(usages: Usages, c: Core, scancode: Scancode) returns (core: Core)
    requires c.Valid() && Classify(scancode).Ordinary?
    ensures core.Valid() && core.bits == c.bits && core.modifiers == c.modifiers
    ensures Feed(usages, c, [Send(scancode, 1)]) == Fed(core, [Report(c.modifiers, UsageOf(usages, scancode))])
  {
    core := c.(press := c.press + 1);
    FeedOne(usages, c, Send(scancode, 1));
  }

  // Holding a key that has no latch set makes exactly two reports and one for every repeat.
  lemma {:induction false} HoldReports(usages: Usages, how: Clearing, c: Core, h: Hold)
    requires c.Valid() && 0 <= h.scancode < 256 && Classify(h.scancode).Ordinary?
    ensures |Feed(usages, c, CallAll(how, {}, HoldCalls(h)).events).reports| == 2 + h.repeats
  {
    HoldEvents(how, {}, h);
    OtherCall(how, h.scancode, 1);
    var press := [Send(h.scancode, 1)];
    FeedAppend(usages, c, press, Rest(h.scancode, h.repeats));
    var core := PressFed(usages, c, h.scancode);
    RestReports(usages, core, h.scancode, h.repeats);
  }

  // What the host makes of the repeats: nothing while it still holds the key, one more press if not.
  lemma {:induction false} DecodeRepeats(held: seq<Byte>, modifiers: Byte, usage: Byte, repeats: nat)
    requires usage != 0 && (Idle(held) || held == [usage, 0, 0, 0, 0, 0])
    ensures Decode(held, Repeated(Report(modifiers, usage), repeats))
            == if repeats > 0 && Idle(held) then [Typed(usage, modifiers)] else []
    decreases repeats
  {
    if repeats > 0 {
      var reports := Repeated(Report(modifiers, usage), repeats);
      var slots := Slots(reports[0]);
      assert slots == [usage, 0, 0, 0, 0, 0];
      FreshZeros(held, slots[1..]);
      assert usage in held <==> !Idle(held) by {
        assert !Idle(held) ==> held[0] == usage;
      }
      RepeatedRest(Report(modifiers, usage), repeats);
      DecodeRepeats(slots, modifiers, usage, repeats - 1);
      assert !Idle(slots) by { assert slots[0] in slots; }
    }
  }

  // And of the release that follows.
  lemma {:induction false} DecodeRest(held: seq<Byte>, modifiers: Byte, usage: Byte, repeats: nat)
    requires usage != 0 && (Idle(held) || held == [usage, 0, 0, 0, 0, 0])
    ensures var reports := Repeated(Report(modifiers, usage), repeats) + [Report(modifiers, 0)];
            && Decode(held, reports) == (if repeats > 0 && Idle(held) then [Typed(usage, modifiers)] else [])
            && Idle(LastSlots(held, reports))
  {
    var middle := Repeated(Report(modifiers, usage), repeats);
    var lastReports: seq<seq<Byte>> := [Report(modifiers, 0)];
    assert lastReports[0][2] == modifiers && AllQuiet(lastReports);
    DecodeRepeats(held, modifiers, usage, repeats);
    DecodeAppend(held, middle, lastReports);
    DecodeQuiet(LastSlots(held, middle), lastReports);
    assert Decode(held, middle) + [] == Decode(held, middle);
  }

  // ---------- what the host reads of a hold ----------

  // The events of a press: the press itself, and then quiet events that take the freed keys off the
  // wire. There are some exactly if a latch was set.
  lemma {:induction false} PressEvents(how: Clearing, k: Keys, scancode: Scancode)
    requires k.latches <= k.wire <= LEFT && Classify(scancode).Ordinary?
    ensures var events := Call(how, k.latches, scancode, 1).events;
            && PressThenQuiet(scancode, events)
            && Wire(k.wire, events[1..]) == k.wire - Freed(how, k.latches)
            && (k.latches == {} <==> events[1..] == [])
  {
    OtherClick(how, k.latches, scancode);
    OthersOnWire(how, k.latches, KeyCall(scancode, 1), k.wire);
    var events := Call(how, k.latches, scancode, 1).events;
    var all := CallAll(how, k.latches, ClickCalls(scancode)).events;
    assert all == events + [Send(scancode, 0)];
    assert forall i | 0 <= i < |events| :: all[i] == events[i];
    FreedSome(how, k.latches);
    if k.latches != {} {
      assert Wire(k.wire, events[1..]) != k.wire;
    }
  }

  // The press and the drops: the key is read once, and is still held exactly if nothing was dropped.
  lemma {:induction false} PressAndDrops(usages: Usages, how: Clearing, k: Keys, c: Core, held: seq<Byte>,
          scancode: Scancode)
    requires k.latches <= k.wire <= LEFT && c.Valid() && c.bits == BitsOf(k.wire) && Idle(held)
    requires Classify(scancode).Ordinary? && UsageOf(usages, scancode) != 0
    ensures var f := Feed(usages, c, Call(how, k.latches, scancode, 1).events);
            && f.core.bits == BitsOf(k.wire - Freed(how, k.latches))
            && Decode(held, f.reports) == Typing(usages, k.wire, scancode)
            && (if k.latches == {} then LastSlots(held, f.reports) == [UsageOf(usages, scancode), 0, 0, 0, 0, 0]
                else Idle(LastSlots(held, f.reports)))
  {
    PressEvents(how, k, scancode);
    FreedSome(how, k.latches);
    var press, rest := Send(scancode, 1), Call(how, k.latches, scancode, 1).events[1..];
    assert Call(how, k.latches, scancode, 1).events == [press] + rest;
    FeedAppend(usages, c, [press], rest);
    var core := PressFed(usages, c, scancode);
    DropsFed(usages, core, k.wire, rest);
    PressDecoded(usages, held, c.modifiers, scancode, Feed(usages, core, rest).reports);
  }

  // Quiet events that are none or change the wire.
  lemma {:induction false} DropsFed(usages: Usages, core: Core, wire: set<ModKey>, rest: seq<Event>)
    requires core.Valid() && core.bits == BitsOf(wire) && AllQuietEvents(rest)
    requires rest == [] || Wire(wire, rest) != wire
    ensures var f := Feed(usages, core, rest);
            f.core.bits == BitsOf(Wire(wire, rest)) && AllQuiet(f.reports) && (f.reports == [] <==> rest == [])
  {
    FeedCounts(usages, core, rest, wire);
    FeedQuiet(usages, core, rest);
    if rest != [] {
      SomethingDropped(usages, core, rest, wire);
    }
  }

  // If the wire changes over a stretch of events, at least one report is sent.
  lemma {:induction false} SomethingDropped(usages: Usages, c: Core, events: seq<Event>, wire: set<ModKey>)
    requires c.Valid() && c.bits == BitsOf(wire) && AllQuietEvents(events)
    requires Wire(wire, events) != wire
    ensures Feed(usages, c, events).reports != []
    decreases |events|
  {
    assert QuietEvent(events[0]);
    ReactFollowsWire(usages, c, events[0], wire);
    if WireStep(wire, events[0]) == wire {
      SomethingDropped(usages, React(usages, c, events[0]).core, events[1..], wire);
    }
  }

  // A report of a press, and quiet reports after it.
  lemma {:induction false} PressDecoded(usages: Usages, held: seq<Byte>, modifiers: Byte, scancode: Scancode,
          rest: seq<seq<Byte>>)
    requires UsageOf(usages, scancode) != 0 && AllQuiet(rest) && Idle(held)
    ensures var reports := [Report(modifiers, UsageOf(usages, scancode))] + rest;
            && Decode(held, reports) == [Typed(UsageOf(usages, scancode), modifiers)]
            && (if rest == [] then LastSlots(held, reports) == [UsageOf(usages, scancode), 0, 0, 0, 0, 0]
                else Idle(LastSlots(held, reports)))
  {
    var first := [Report(modifiers, UsageOf(usages, scancode))];
    DecodeAppend(held, first, rest);
    DecodeOne(held, modifiers, UsageOf(usages, scancode));
    DecodeQuiet(LastSlots(held, first), rest);
  }

  // A held ordinary key that has a usage.
  lemma {:induction false} OrdinaryHoldReads(usages: Usages, how: Clearing, k: Keys, c: Core, held: seq<Byte>, h: Hold)
    requires k.latches <= k.wire <= LEFT && c.Valid() && c.bits == BitsOf(k.wire) && Idle(held)
    requires 0 <= h.scancode < 256 && Classify(h.scancode).Ordinary? && UsageOf(usages, h.scancode) != 0
    ensures Reads(usages, c, held, CallAll(how, k.latches, HoldCalls(h)).events, HoldTyping(usages, how, k, h))
  {
    var sc: Scancode := h.scancode;
    var press := Call(how, k.latches, sc, 1).events;
    var f := Feed(usages, c, press);
    HoldEvents(how, k.latches, h);
    PressAndDrops(usages, how, k, c, held, sc);
    FeedAppend(usages, c, press, Rest(sc, h.repeats));
    RestReports(usages, f.core, sc, h.repeats);
    var now := LastSlots(held, f.reports);
    DecodeAppend(held, f.reports, Feed(usages, f.core, Rest(sc, h.repeats)).reports);
    DecodeRest(now, f.core.modifiers, UsageOf(usages, sc), h.repeats);
    assert k.latches == {} ==> !Idle(now) by {
      assert k.latches == {} ==> now[0] in now;
    }
  }

  // Events whose reports name no key.
  predicate Silent(usages: Usages, e: Event) {
    e.kind == EV_KEY && (Classify(e.code).Modifier? || e.value <= 0 || UsageOf(usages, e.code) == 0)
  }

  lemma {:induction false} SilentReads(usages: Usages, c: Core, held: seq<Byte>, events: seq<Event>)
    requires c.Valid() && Idle(held) && forall e | e in events :: Silent(usages, e)
    ensures Reads(usages, c, held, events, [])
  {
    FeedSilent(usages, c, events);
    DecodeQuiet(held, Feed(usages, c, events).reports);
  }

  lemma {:induction false} FeedSilent(usages: Usages, c: Core, events: seq<Event>)
    requires c.Valid() && forall e | e in events :: Silent(usages, e)
    ensures AllQuiet(Feed(usages, c, events).reports)
    decreases |events|
  {
    if events != [] {
      assert Silent(usages, events[0]);
      var r := React(usages, c, events[0]);
      assert r.report.Some? ==> r.report.value == Report(r.core.modifiers, 0) && r.report.value[2] == r.core.modifiers;
      FeedSilent(usages, r.core, events[1..]);
    }
  }

  lemma {:induction false} RepeatedEach<T>(x: T, n: nat)
    ensures forall y | y in Repeated(x, n) :: y == x
  {
    if n > 0 {
      RepeatedEach(x, n - 1);
    }
  }

  lemma {:induction false} PressIsSilent(usages: Usages, how: Clearing, latches: set<ModKey>, scancode: Scancode)
    requires IsOther(scancode) && latches <= LEFT
    requires Silent(usages, Send(scancode, 1))
    ensures forall e | e in Call(how, latches, scancode, 1).events :: Silent(usages, e)
  {
    NotLeft(scancode);
    OtherClick(how, latches, scancode);
    var press, all := Call(how, latches, scancode, 1).events, CallAll(how, latches, ClickCalls(scancode)).events;
    assert all == press + [Send(scancode, 0)];
    forall i | 0 <= i < |press| ensures Silent(usages, press[i]) {
      assert all[i] == press[i];
      if i > 0 {
        assert QuietEvent(all[i]);
      }
    }
  }

  lemma {:induction false} OtherHoldIsSilent(usages: Usages, how: Clearing, latches: set<ModKey>, h: Hold)
    requires 0 <= h.scancode < 256 && IsOther(h.scancode) && latches <= LEFT
    requires Classify(h.scancode).Modifier? || UsageOf(usages, h.scancode) == 0
    ensures forall e | e in CallAll(how, latches, HoldCalls(h)).events :: Silent(usages, e)
  {
    PressIsSilent(usages, how, latches, h.scancode);
    HoldEvents(how, latches, h);
    RepeatedEach(Send(h.scancode, 2), h.repeats);
  }

  // One hold, end to end.
  lemma {:induction false} HoldReads(usages: Usages, how: Clearing, k: Keys, c: Core, held: seq<Byte>, h: Hold)
    requires k.latches <= k.wire <= LEFT && c.Valid() && c.bits == BitsOf(k.wire) && Idle(held)
    requires 0 <= h.scancode < 256
    ensures Reads(usages, c, held, CallAll(how, k.latches, HoldCalls(h)).events, HoldTyping(usages, how, k, h))
  {
    if m :| m in LEFT && KeyCall(h.scancode, 1).IsLeft(m) {
      LeftHold(how, k, h, m);
      QuietReads(usages, c, held, CallAll(how, k.latches, HoldCalls(h)).events);
    } else if Classify(h.scancode).Modifier? || UsageOf(usages, h.scancode) == 0 {
      OtherHoldIsSilent(usages, how, k.latches, h);
      SilentReads(usages, c, held, CallAll(how, k.latches, HoldCalls(h)).events);
    } else {
      OrdinaryHoldReads(usages, how, k, c, held, h);
    }
  }

  // ---------- whole runs of holds ----------

  lemma {:induction false} CallsAreKeys(how: Clearing, latches: set<ModKey>, calls: seq<KeyCall>)
    requires forall c | c in calls :: c.Valid()
    ensures forall e | e in CallAll(how, latches, calls).events :: e.kind == EV_KEY
    decreases |calls|
  {
    if calls != [] {
      assert calls[0] in calls;
      CallKeys(how, latches, calls[0]);
      CallsAreKeys(how, Call(how, latches, calls[0].scancode, calls[0].updown).latches, calls[1..]);
    }
  }

  lemma {:induction false} HoldKeys(how: Clearing, latches: set<ModKey>, h: Hold)
    requires 0 <= h.scancode < 256
    ensures forall e | e in CallAll(how, latches, HoldCalls(h)).events :: e.kind == EV_KEY
  {
    RepeatedEach(KeyCall(h.scancode, 2), h.repeats);
    CallsAreKeys(how, latches, HoldCalls(h));
  }

  // For every run of held keys and either way of clearing: what the host reads.
  lemma {:induction false} HoldsRead(usages: Usages, how: Clearing, k: Keys, holds: seq<Hold>, c: Core, held: seq<Byte>)
    requires k.latches <= k.wire <= LEFT && InRange(holds)
    requires c.Valid() && c.bits == BitsOf(k.wire) && Idle(held)
    ensures Reads(usages, c, held, CallAll(how, k.latches, CallsOfHolds(holds)).events,
                  HostSeesHolds(usages, how, k, holds))
    decreases |holds|
  {
    if holds != [] {
      var h, later := holds[0], CallsOfHolds(holds[1..]);
      HoldEffect(how, k, h);
      HoldReads(usages, how, k, c, held, h);
      HoldKeys(how, k.latches, h);
      var o := CallAll(how, k.latches, HoldCalls(h));
      var f := Feed(usages, c, o.events);
      FeedCounts(usages, c, o.events, k.wire);
      var next := AfterHold(how, k, h);
      HoldsRead(usages, how, next, holds[1..], f.core, LastSlots(held, f.reports));
      CallAllAppend(how, k.latches, HoldCalls(h), later);
      ReadsJoin(usages, c, held, o.events, CallAll(how, o.latches, later).events,
                HoldTyping(usages, how, k, h), HostSeesHolds(usages, how, next, holds[1..]));
    }
  }

  // ---------- holds without repeats ----------

  predicate NoneRepeats(holds: seq<Hold>) {
    forall h | h in holds :: h.repeats == 0
  }

  function ScancodesOf(holds: seq<Hold>): (clicks: seq<Scancode>)
    requires InRange(holds)
    ensures |clicks| == |holds|
  {
    if holds == [] then [] else [holds[0].scancode] + ScancodesOf(holds[1..])
  }

  lemma {:induction false} ScancodesCons(holds: seq<Hold>)
    requires InRange(holds) && holds != []
    ensures ScancodesOf(holds)[0] == holds[0].scancode && ScancodesOf(holds)[1..] == ScancodesOf(holds[1..])
  {
  }

  // They are clicks.
  lemma {:induction false} HoldsAreClicks(usages: Usages, how: Clearing, k: Keys, holds: seq<Hold>)
    requires InRange(holds) && NoneRepeats(holds)
    ensures HostSeesHolds(usages, how, k, holds) == HostSees(usages, how, k.latches, k.wire, ScancodesOf(holds))
    decreases |holds|
  {
    if holds != [] {
      var h := holds[0];
      assert h in holds;
      ScancodesCons(holds);
      HoldIsClick(usages, how, k, h);
      HoldsAreClicks(usages, how, AfterHold(how, k, h), holds[1..]);
    }
  }

  lemma {:induction false} HoldIsClick(usages: Usages, how: Clearing, k: Keys, h: Hold)
    requires 0 <= h.scancode < 256 && h.repeats == 0
    ensures AfterHold(how, k, h) == Keys(LatchesAfter(how, k.latches, h.scancode), WireAfter(how, k.latches, k.wire, h.scancode))
    ensures HoldTyping(usages, how, k, h) == Typing(usages, k.wire, h.scancode)
  {
    OneToggle(how, k, h.scancode);
    assert h == Hold(h.scancode, 0);
    assert Typing(usages, k.wire, h.scancode) + [] == Typing(usages, k.wire, h.scancode);
  }

  lemma {:induction false} OneToggle(how: Clearing, k: Keys, scancode: Scancode)
    ensures AfterHold(how, k, Hold(scancode, 0))
            == Keys(LatchesAfter(how, k.latches, scancode), WireAfter(how, k.latches, k.wire, scancode))
  {
    if Classify(scancode).Modifier? {
      assert Toggles(how, k, Classify(scancode).key, 0) == k;
    }
  }

  // ---------- what is typed, in numbers ----------

  // A press of an ordinary key types the usage that the table has for it, if it has one, under the
  // modifier byte of the keys in force; the six modifier keys type nothing.
  lemma {:induction false} TypingIs(usages: Usages, keys: set<ModKey>, scancode: Scancode)
    ensures Typing(usages, keys, scancode) ==
      if scancode !in {29, 42, 54, 56, 97, 100} && usages[scancode] != 0
      then [Typed(usages[scancode], ModifierByte(BitsOf(keys)))] else []
    ensures ModifierByte(BitsOf(keys)) == DeviceRuns.ByteOfKeys(keys)
  {
    DeviceRuns.ByteOfKeysIs(keys);
  }
}
