// The whole way: mouse gestures and timer ticks drive the keyboard side, its pipe feeds the device
// loop, and the host reads the reports. A gesture presses a button, holds it for some ticks and
// releases it. It is rested if a tick with no button held, which resets the timer, comes before it;
// if not, it goes on with the timer that the gesture before it left behind.
module Gestures {
  import opened Wrappers
  import opened StickyModifiers
  import opened Latches
  import opened BootDevice
  import opened AutoRepeat
  import opened Keypad
  import opened Pipeline
  import opened HeldKeys
  import DeviceRuns

  datatype Gesture = Gesture(rested: bool, button: Button, ticks: nat)

  function Ticks(n: nat): seq<UiEvent> {
    Repeated(TimerTick, n)
  }

  function InputsOf(g: Gesture): seq<UiEvent> {
    (if g.rested then [TimerTick] else []) + ([ButtonPress(Some(g.button))] + Ticks(g.ticks) + [ButtonRelease])
  }

  function AllInputs(gestures: seq<Gesture>): seq<UiEvent> {
    if gestures == [] then [] else InputsOf(gestures[0]) + AllInputs(gestures[1..])
  }

  // The timer when the button goes down, and when it is released.
  function Started(t: Timer, g: Gesture): Timer {
    if g.rested then RESET else t
  }

  function Stopped(cfg: Config, t: Timer, g: Gesture): Timer {
    AutoRepeat.After(Started(t, g), g.ticks, cfg.keyDelayRepeat, cfg.keyRepeat)
  }

  function HoldOf(cfg: Config, t: Timer, g: Gesture): Hold {
    Hold.Hold(g.button.scancode, Fires(Started(t, g), g.ticks, cfg.keyDelayRepeat, cfg.keyRepeat))
  }

  // What the gestures amount to: each button with the repeats that the timer makes of it.
  function HoldsOf(cfg: Config, t: Timer, gestures: seq<Gesture>): (holds: seq<Hold>)
    ensures |holds| == |gestures|
    ensures forall i | 0 <= i < |gestures| :: holds[i].scancode == gestures[i].button.scancode
    decreases |gestures|
  {
    if gestures == [] then []
    else [HoldOf(cfg, t, gestures[0])] + HoldsOf(cfg, Stopped(cfg, t, gestures[0]), gestures[1..])
  }

  function SwitchesOf(gestures: seq<Gesture>): seq<int> {
    if gestures == [] then [] else SwitchOf(gestures[0].button) + SwitchesOf(gestures[1..])
  }

  // ---------- the keyboard side ----------

  lemma {:induction false} UiRunAppend(cfg: Config, u: Ui, a: seq<UiEvent>, b: seq<UiEvent>)
    ensures UiRun(cfg, u, a + b) == UiRun(cfg, UiRun(cfg, u, a), b)
    decreases |a|
  {
    if a == [] {
      assert a + b == b;
    } else {
      assert (a + b)[0] == a[0] && (a + b)[1..] == a[1..] + b;
      UiRunAppend(cfg, UiStep(cfg, u, a[0]), a[1..], b);
    }
  }

  lemma {:induction false} UiOne(cfg: Config, u: Ui, input: UiEvent)
    ensures UiRun(cfg, u, [input]) == UiStep(cfg, u, input)
  {
    assert [input][1..] == [];
  }

  // The keyboard after a press and n ticks: the sticky state was held once and once per repeat,
  // and the pipe has the press and the repeats.
  function HeldFor(cfg: Config, u: Ui, b: Button, n: nat): Ui {
    var repeats := Fires(u.timer, n, cfg.keyDelayRepeat, cfg.keyRepeat);
    var o := HeldDown(cfg.clearing, u.latches, b.scancode, repeats);
    u.(sticky := HeldTimes(u.sticky, b.modifier, 1 + repeats), latches := o.latches, pipe := u.pipe + o.events,
       timer := AutoRepeat.After(u.timer, n, cfg.keyDelayRepeat, cfg.keyRepeat), active := Some(b))
  }

  // One more tick.
  lemma {:induction false} HoldsOn(cfg: Config, u: Ui, b: Button, n: nat)
    requires u.alive && b.scancode != QUIT_CODE
    ensures UiStep(cfg, HeldFor(cfg, u, b, n), TimerTick) == HeldFor(cfg, u, b, n + 1)
  {
    var before := HeldFor(cfg, u, b, n);
    if FiresNow(before.timer, cfg.keyDelayRepeat, cfg.keyRepeat) {
      var k := Fires(u.timer, n, cfg.keyDelayRepeat, cfg.keyRepeat);
      OneMoreRepeat(cfg.clearing, u.latches, b.scancode, k);
      var o := HeldDown(cfg.clearing, u.latches, b.scancode, k);
      Regrouped(u.pipe, o.events, Call(cfg.clearing, o.latches, b.scancode, 2).events);
    }
  }

  lemma {:induction false} HoldsFor(cfg: Config, u: Ui, b: Button, n: nat)
    requires u.alive && b.scancode != QUIT_CODE
    ensures UiRun(cfg, HeldFor(cfg, u, b, 0), Ticks(n)) == HeldFor(cfg, u, b, n)
  {
    if n > 0 {
      HoldsFor(cfg, u, b, n - 1);
      RepeatedAtEnd(TimerTick, n - 1);
      UiRunAppend(cfg, HeldFor(cfg, u, b, 0), Ticks(n - 1), [TimerTick]);
      UiOne(cfg, HeldFor(cfg, u, b, n - 1), TimerTick);
      HoldsOn(cfg, u, b, n - 1);
    }
  }

  // The keyboard after a whole gesture.
  function AfterGesture(cfg: Config, u: Ui, g: Gesture): Ui {
    var h := HoldOf(cfg, u.timer, g);
    var o := CallAll(cfg.clearing, u.latches, HoldCalls(h));
    u.(sticky := Clicked(u.sticky, g.button.modifier, h.repeats), latches := o.latches, pipe := u.pipe + o.events,
       timer := Stopped(cfg, u.timer, g), switches := u.switches + SwitchOf(g.button))
  }

  lemma {:induction false} PressFirst(cfg: Config, u: Ui, b: Button)
    requires u.alive && b.scancode != QUIT_CODE
    ensures UiStep(cfg, u, ButtonPress(Some(b))) == HeldFor(cfg, u, b, 0)
  {
    JustPressed(cfg.clearing, u.latches, b.scancode);
    assert HeldTimes(u.sticky, b.modifier, 1) == Held(HeldTimes(u.sticky, b.modifier, 0), b.modifier);
  }

  lemma {:induction false} ReleaseLast(cfg: Config, u: Ui, g: Gesture)
    requires u.alive && u.active.None? && g.button.scancode != QUIT_CODE
    ensures UiStep(cfg, HeldFor(cfg, u.(timer := Started(u.timer, g)), g.button, g.ticks), ButtonRelease)
            == AfterGesture(cfg, u, g)
  {
    var h := HoldOf(cfg, u.timer, g);
    AtRelease(cfg.clearing, u.latches, h);
    var o := HeldDown(cfg.clearing, u.latches, h.scancode, h.repeats);
    Regrouped(u.pipe, o.events, Call(cfg.clearing, o.latches, h.scancode, 0).events);
  }

  // The tick before a rested gesture.
  lemma {:induction false} StartsFrom(cfg: Config, u: Ui, g: Gesture)
    requires u.alive && u.active.None?
    ensures UiRun(cfg, u, InputsOf(g))
            == UiRun(cfg, u.(timer := Started(u.timer, g)), [ButtonPress(Some(g.button))] + Ticks(g.ticks) + [ButtonRelease])
  {
    var inputs := [ButtonPress(Some(g.button))] + Ticks(g.ticks) + [ButtonRelease];
    if g.rested {
      UiRunAppend(cfg, u, [TimerTick], inputs);
      UiOne(cfg, u, TimerTick);
    } else {
      assert [] + inputs == inputs;
    }
  }

  // A gesture is a click with the repeats that the timer makes.
  lemma {:induction false} GestureIsHold(cfg: Config, u: Ui, g: Gesture)
    requires u.alive && u.active.None? && g.button.scancode != QUIT_CODE
    ensures UiRun(cfg, u, InputsOf(g)) == AfterGesture(cfg, u, g)
  {
    var b, u0 := g.button, u.(timer := Started(u.timer, g));
    var press: seq<UiEvent> := [ButtonPress(Some(b))];
    StartsFrom(cfg, u, g);
    UiRunAppend(cfg, u0, press + Ticks(g.ticks), [ButtonRelease]);
    UiRunAppend(cfg, u0, press, Ticks(g.ticks));
    UiOne(cfg, u0, ButtonPress(Some(b)));
    PressFirst(cfg, u0, b);
    HoldsFor(cfg, u0, b, g.ticks);
    UiOne(cfg, HeldFor(cfg, u0, b, g.ticks), ButtonRelease);
    ReleaseLast(cfg, u, g);
  }

  predicate NoneQuits(gestures: seq<Gesture>) {
    forall i | 0 <= i < |gestures| :: gestures[i].button.scancode != QUIT_CODE
  }

  // For every run of gestures, from any timer: the pipe gets exactly the events of their holds, and
  // the layouts are switched as the released buttons say.
  lemma {:induction false} GesturesArePiped(cfg: Config, u: Ui, gestures: seq<Gesture>)
    requires u.alive && u.active.None? && NoneQuits(gestures)
    ensures var end := UiRun(cfg, u, AllInputs(gestures));
            var o := CallAll(cfg.clearing, u.latches, CallsOfHolds(HoldsOf(cfg, u.timer, gestures)));
            && end.alive && end.active.None? && end.latches == o.latches && end.pipe == u.pipe + o.events
            && end.switches == u.switches + SwitchesOf(gestures)
    decreases |gestures|
  {
    if gestures == [] {
      assert u.pipe + [] == u.pipe && u.switches + [] == u.switches;
    } else {
      var g, mid := gestures[0], AfterGesture(cfg, u, gestures[0]);
      UiRunAppend(cfg, u, InputsOf(g), AllInputs(gestures[1..]));
      GestureIsHold(cfg, u, g);
      assert mid.timer == Stopped(cfg, u.timer, g);
      GesturesArePiped(cfg, mid, gestures[1..]);
      OneMoreHold(cfg, u, gestures);
      Regrouped(u.switches, SwitchOf(g.button), SwitchesOf(gestures[1..]));
    }
  }

  // The first gesture's calls, and then the others'.
  lemma {:induction false} OneMoreHold(cfg: Config, u: Ui, gestures: seq<Gesture>)
    requires gestures != []
    ensures var mid := AfterGesture(cfg, u, gestures[0]);
            var later := CallAll(cfg.clearing, mid.latches, CallsOfHolds(HoldsOf(cfg, mid.timer, gestures[1..])));
            var o := CallAll(cfg.clearing, u.latches, CallsOfHolds(HoldsOf(cfg, u.timer, gestures)));
            o.latches == later.latches && u.pipe + o.events == mid.pipe + later.events
  {
    var holds := HoldsOf(cfg, u.timer, gestures);
    var rest := HoldsOf(cfg, Stopped(cfg, u.timer, gestures[0]), gestures[1..]);
    assert holds[0] == HoldOf(cfg, u.timer, gestures[0]) && holds[1..] == rest;
    CallAllAppend(cfg.clearing, u.latches, HoldCalls(holds[0]), CallsOfHolds(rest));
    var now := CallAll(cfg.clearing, u.latches, HoldCalls(holds[0]));
    Regrouped(u.pipe, now.events, CallAll(cfg.clearing, now.latches, CallsOfHolds(rest)).events);
  }

  // And the sticky state stays consistent through all of them.
  lemma {:induction false} GesturesKeepConsistency(cfg: Config, u: Ui, gestures: seq<Gesture>)
    requires u.alive && u.active.None? && u.sticky.Consistent() && NoneQuits(gestures)
    ensures UiRun(cfg, u, AllInputs(gestures)).sticky.Consistent()
    decreases |gestures|
  {
    if gestures != [] {
      var g := gestures[0];
      UiRunAppend(cfg, u, InputsOf(g), AllInputs(gestures[1..]));
      GestureIsHold(cfg, u, g);
      ClickConsistent(u.sticky, g.button.modifier, HoldOf(cfg, u.timer, g).repeats);
      GesturesKeepConsistency(cfg, AfterGesture(cfg, u, g), gestures[1..]);
    }
  }

  lemma {:induction false} HoldConsistent(s: Sticky, modifier: Option<Flag>, n: nat)
    requires s.Consistent()
    ensures HeldTimes(s, modifier, n).Consistent()
  {
    if n > 0 {
      HoldConsistent(s, modifier, n - 1);
    }
  }

  lemma {:induction false} ClickConsistent(s: Sticky, modifier: Option<Flag>, repeats: nat)
    requires s.Consistent()
    ensures Clicked(s, modifier, repeats).Consistent()
  {
    HoldConsistent(s, modifier, 1 + repeats);
  }

  function CapsClicks(gestures: seq<Gesture>): nat {
    if gestures == [] then 0
    else (if gestures[0].button.modifier == Some(Caps) then 1 else 0) + CapsClicks(gestures[1..])
  }

  // Caps is on after a run of gestures exactly if it was on before, flipped by the number of clicks on
  // Caps keys: holding one does not count, and no other key does.
  lemma {:induction false} CapsParity(cfg: Config, u: Ui, gestures: seq<Gesture>)
    requires u.alive && u.active.None? && u.sticky.Consistent() && NoneQuits(gestures)
    ensures Caps in UiRun(cfg, u, AllInputs(gestures)).sticky.state <==>
              (if CapsClicks(gestures) % 2 == 0 then Caps in u.sticky.state else Caps !in u.sticky.state)
    decreases |gestures|
  {
    if gestures != [] {
      var g, repeats := gestures[0], HoldOf(cfg, u.timer, gestures[0]).repeats;
      UiRunAppend(cfg, u, InputsOf(g), AllInputs(gestures[1..]));
      GestureIsHold(cfg, u, g);
      ClickConsistent(u.sticky, g.button.modifier, repeats);
      if g.button.modifier == Some(Caps) {
        CapsClickFlips(u.sticky, repeats);
      } else {
        OtherClickKeepsCaps(u.sticky, g.button.modifier, repeats);
      }
      CapsParity(cfg, AfterGesture(cfg, u, g), gestures[1..]);
    }
  }

  // ---------- presses that are not gestures ----------

  // A press beside all buttons drops the one that is down: it gets no release, and nothing else happens.
  lemma {:induction false} MissedPress(cfg: Config, u: Ui)
    requires u.alive
    ensures UiRun(cfg, u, [ButtonPress(None), ButtonRelease]) == u.(active := None)
  {
    assert [ButtonPress(None), ButtonRelease] == [ButtonPress(None)] + [ButtonRelease];
    UiRunAppend(cfg, u, [ButtonPress(None)], [ButtonRelease]);
    UiOne(cfg, u, ButtonPress(None));
    UiOne(cfg, u.(active := None), ButtonRelease);
  }

  // A press while another button is down drops that button too; what follows is the gesture of the new
  // one.
  lemma {:induction false} PressReplaces(cfg: Config, u: Ui, g: Gesture)
    requires u.alive && g.button.scancode != QUIT_CODE && !g.rested
    ensures UiRun(cfg, u, InputsOf(g)) == AfterGesture(cfg, u.(active := None), g)
  {
    var u0 := u.(active := None);
    var inputs := [ButtonPress(Some(g.button))] + Ticks(g.ticks) + [ButtonRelease];
    assert [] + inputs == inputs && inputs[1..] == Ticks(g.ticks) + [ButtonRelease];
    assert UiStep(cfg, u, inputs[0]) == UiStep(cfg, u0, inputs[0]);
    GestureIsHold(cfg, u0, g);
  }

  // The quit key puts a quit event into the pipe and ends the keyboard, whatever comes after.
  lemma {:induction false} QuitEnds(cfg: Config, u: Ui, b: Button, more: seq<UiEvent>)
    requires u.alive && b.scancode == 0xffff
    ensures var end := UiRun(cfg, u, [ButtonPress(Some(b))] + more);
            && !end.alive && end.pipe == u.pipe + [Event(0xff, 0xffff, 1)]
            && end.latches == u.latches && end.switches == u.switches && end.sticky.state == u.sticky.state
  {
    UiRunAppend(cfg, u, [ButtonPress(Some(b))], more);
    UiOne(cfg, u, ButtonPress(Some(b)));
    NothingAfterQuit(cfg, UiStep(cfg, u, ButtonPress(Some(b))), more);
  }

  lemma {:induction false} NothingAfterQuit(cfg: Config, u: Ui, more: seq<UiEvent>)
    requires !u.alive
    ensures UiRun(cfg, u, more) == u
    decreases |more|
  {
    if more != [] {
      NothingAfterQuit(cfg, u, more[1..]);
    }
  }

  // How often a held button repeats, in terms of the two settings: after a rest not before the delay,
  // and then once per interval; without one, the ticks that the timer has already counted are taken off
  // the delay, or off the interval if it has fired since the last rest.
  lemma {:induction false} RepeatTimes(cfg: Config, t: Timer, g: Gesture)
    ensures var (delay, interval) := (cfg.keyDelayRepeat, cfg.keyRepeat);
            var left := if g.rested then delay else if t.delay then interval - t.timer else delay - t.timer;
            HoldOf(cfg, t, g) ==
            Hold.Hold(g.button.scancode,
                      if left < 1 || g.ticks < left then 0 else if interval < 1 then 1 else RepeatsAfter(g.ticks - left, interval))
  {
    ClosedForm(Started(t, g), g.ticks, cfg.keyDelayRepeat, cfg.keyRepeat);
  }

  // One repeat, and one more for every full interval.
  function RepeatsAfter(ticks: nat, interval: int): (n: nat)
    requires interval >= 1
    ensures n == 1 + ticks / interval
  {
    QuotientIsNat(ticks, interval);
    1 + ticks / interval
  }

  lemma {:induction false} QuotientIsNat(a: nat, d: int)
    requires d >= 1
    ensures a / d >= 0
  {
  }

  // ---------- gestures that are too short to repeat ----------

  // The ticks add up from gesture to gesture until a rested one, and never reach the repeat.
  predicate AllShort(cfg: Config, t: Timer, gestures: seq<Gesture>)
    decreases |gestures|
  {
    gestures == [] ||
    var start := Started(t, gestures[0]);
    var left := TicksLeft(start, cfg.keyDelayRepeat, cfg.keyRepeat);
    && (left < 1 || gestures[0].ticks < left)
    && AllShort(cfg, Timer(start.timer + gestures[0].ticks, start.delay), gestures[1..])
  }

  // One press is short exactly if its timer never fires.
  lemma {:induction false} ShortOnce(t: Timer, ticks: nat, first: int, interval: int)
    ensures var left := TicksLeft(t, first, interval);
            && (Fires(t, ticks, first, interval) == 0 <==> left < 1 || ticks < left)
            && (left < 1 || ticks < left ==> AutoRepeat.After(t, ticks, first, interval) == Timer(t.timer + ticks, t.delay))
  {
    var left := TicksLeft(t, first, interval);
    if left < 1 || ticks < left {
      NotYet(t, ticks, first, interval);
    } else {
      NotYet(t, left - 1, first, interval);
      assert Fires(t, left, first, interval) == 1;
      TicksJoin(t, left, ticks - left, first, interval);
    }
  }

  lemma {:induction false} NoneRepeatsCons(h: Hold, rest: seq<Hold>)
    ensures NoneRepeats([h] + rest) <==> h.repeats == 0 && NoneRepeats(rest)
  {
    assert h in [h] + rest;
    assert forall x | x in rest :: x in [h] + rest;
  }

  // They are clicks without repeats, and no others are.
  lemma {:induction false} ShortGesturesAreClicks(cfg: Config, t: Timer, gestures: seq<Gesture>)
    ensures NoneRepeats(HoldsOf(cfg, t, gestures)) <==> AllShort(cfg, t, gestures)
    decreases |gestures|
  {
    if gestures != [] {
      var g := gestures[0];
      ShortOnce(Started(t, g), g.ticks, cfg.keyDelayRepeat, cfg.keyRepeat);
      NoneRepeatsCons(HoldOf(cfg, t, g), HoldsOf(cfg, Stopped(cfg, t, g), gestures[1..]));
      ShortGesturesAreClicks(cfg, Stopped(cfg, t, g), gestures[1..]);
    }
  }

  // Gestures that each come after a rest need only be short one by one.
  lemma {:induction false} RestedAreShort(cfg: Config, t: Timer, gestures: seq<Gesture>)
    requires forall i | 0 <= i < |gestures| :: gestures[i].rested
    ensures AllShort(cfg, t, gestures) <==>
              forall i | 0 <= i < |gestures| :: cfg.keyDelayRepeat < 1 || gestures[i].ticks < cfg.keyDelayRepeat
    decreases |gestures|
  {
    if gestures != [] {
      RestedAreShort(cfg, Timer(gestures[0].ticks, false), gestures[1..]);
      assert forall i | 1 <= i < |gestures| :: gestures[i] == gestures[1..][i - 1];
      assert forall i | 0 <= i < |gestures[1..]| :: gestures[1..][i] == gestures[i + 1];
    }
  }

  // A failing input: two gestures of one tick each, without a rest between them, repeat if the first
  // delay is two ticks. Each alone is short.
  lemma {:induction false} UnrestedRepeats(cfg: Config, b: Button)
    requires cfg.keyDelayRepeat == 2
    ensures HoldsOf(cfg, RESET, [Gesture(true, b, 1), Gesture(false, b, 1)]) == [Hold.Hold(b.scancode, 0), Hold.Hold(b.scancode, 1)]
  {
    var g, h := Gesture(true, b, 1), Gesture(false, b, 1);
    var both: seq<Gesture> := [g, h];
    assert both[1..] == [h] && [h][1..] == [];
    ClosedForm(RESET, 1, cfg.keyDelayRepeat, cfg.keyRepeat);
    ClosedForm(Timer(1, false), 1, cfg.keyDelayRepeat, cfg.keyRepeat);
  }

  // ---------- from the mouse to the host ----------

  const FRESH: Ui := Ui(Sticky({}, {}), {}, [], RESET, None, true, [])

  predicate OnKeyboard(gestures: seq<Gesture>) {
    forall i | 0 <= i < |gestures| :: 0 <= gestures[i].button.scancode < 256
  }

  // From the mouse to the host, for every run of gestures, however long they hold their buttons and
  // whether they rest or not. They are made on a fresh keyboard; a device that has shaken hands and
  // is at rest processes the events in its pipe, through whatever else happens in its loop, without
  // failing. The host reads each key under the modifiers on the wire, and once more if it repeats
  // with a latch set.
  lemma {:induction false} MouseToHost(cfg: Config, gestures: seq<Gesture>, usages: Usages, s: Loop, ws: seq<Wakeup>)
    requires OnKeyboard(gestures)
    requires s.core.Valid() && s.core.bits == START.core.bits && Inputs(s.out) == []
    requires BootDevice.Run(usages, s, ws).running
    requires AllProcessed(usages, s, ws) == UiRun(cfg, FRESH, AllInputs(gestures)).pipe
    ensures Decode([], Inputs(BootDevice.Run(usages, s, ws).out))
            == HostSeesHolds(usages, cfg.clearing, Keys({}, {}), HoldsOf(cfg, RESET, gestures))
  {
    var holds := HoldsOf(cfg, RESET, gestures);
    GesturesArePiped(cfg, FRESH, gestures);
    var events := CallAll(cfg.clearing, {}, CallsOfHolds(holds)).events;
    assert [] + events == events;
    LoopFeeds(usages, s, ws);
    var reports := Feed(usages, s.core, events).reports;
    assert [] + reports == reports;
    assert BitsOf({}) == START.core.bits;
    HoldsRead(usages, cfg.clearing, Keys({}, {}), holds, s.core, []);
  }

  // The same from the start of the device: once the host has asked for the boot protocol, and nothing
  // of that was asked before, the device reads the keyboard's pipe out pass by pass, with anything
  // else happening in between.
  lemma {:induction false} MouseToHostFromStart(cfg: Config, gestures: seq<Gesture>, usages: Usages,
          before: seq<Wakeup>, ask: Wakeup, after: seq<Wakeup>)
    requires OnKeyboard(gestures) && DeviceRuns.AsksForBoot(ask)
    requires forall n | 0 <= n < |before| :: !DeviceRuns.AsksForBoot(before[n])
    requires BootDevice.Run(usages, START, before + ([ask] + after)).running
    requires DeviceRuns.KeyEvents(after) == UiRun(cfg, FRESH, AllInputs(gestures)).pipe
    ensures Decode([], Inputs(BootDevice.Run(usages, START, before + ([ask] + after)).out))
            == HostSeesHolds(usages, cfg.clearing, Keys({}, {}), HoldsOf(cfg, RESET, gestures))
  {
    DeviceRuns.ProcessedFromHandshake(usages, START, before, ask, after);
    MouseToHost(cfg, gestures, usages, START, before + ([ask] + after));
  }

  // Meaning preservation from the mouse to the host: if the gestures are too short to repeat, and
  // every clear removes its own bit or no click clears a latch while another is set, then the host
  // reads exactly the ordinary keys pressed, each with the modifiers latched at it.
  lemma {:induction false} ShortMouseToHost(cfg: Config, gestures: seq<Gesture>, usages: Usages, s: Loop,
          ws: seq<Wakeup>)
    requires OnKeyboard(gestures) && AllShort(cfg, RESET, gestures)
    requires s.core.Valid() && s.core.bits == START.core.bits && Inputs(s.out) == []
    requires BootDevice.Run(usages, s, ws).running
    requires AllProcessed(usages, s, ws) == UiRun(cfg, FRESH, AllInputs(gestures)).pipe
    requires cfg.clearing == OwnBit || NeverClearsAmongSeveral({}, ScancodesOf(HoldsOf(cfg, RESET, gestures)))
    ensures Decode([], Inputs(BootDevice.Run(usages, s, ws).out))
            == Meaning(usages, cfg.clearing, {}, ScancodesOf(HoldsOf(cfg, RESET, gestures)))
  {
    var holds := HoldsOf(cfg, RESET, gestures);
    MouseToHost(cfg, gestures, usages, s, ws);
    ShortGesturesAreClicks(cfg, RESET, gestures);
    HoldsAreClicks(usages, cfg.clearing, Keys({}, {}), holds);
    SeenIsMeant(usages, cfg.clearing, {}, ScancodesOf(holds));
  }

  // Holding an ordinary key that has no latch set for n ticks, from any timer, makes exactly two
  // reports plus one for every time the timer fires.
  lemma {:induction false} HeldKeyReports(cfg: Config, t: Timer, usages: Usages, c: Core, g: Gesture)
    requires c.Valid() && 0 <= g.button.scancode < 256 && Classify(g.button.scancode).Ordinary?
    ensures var events := CallAll(cfg.clearing, {}, HoldCalls(HoldOf(cfg, t, g))).events;
            var left, interval := TicksLeft(Started(t, g), cfg.keyDelayRepeat, cfg.keyRepeat), cfg.keyRepeat;
            |Feed(usages, c, events).reports|
            == 2 + if left < 1 || g.ticks < left then 0 else if interval < 1 then 1 else 1 + (g.ticks - left) / interval
  {
    ClosedForm(Started(t, g), g.ticks, cfg.keyDelayRepeat, cfg.keyRepeat);
    HoldReports(usages, cfg.clearing, c, HoldOf(cfg, t, g));
  }
}
