// The keyboard side: one mouse button and the timer drive bthid_process_keypress, which keeps the
// sticky state and the latches and writes to the pipe.
module Keypad {
  import opened Wrappers
  import opened StickyModifiers
  import opened Latches
  import opened AutoRepeat

  // A layout switch of -1 is none.
  datatype Button = Button(modifier: Option<Flag>, scancode: int, layoutSwitch: int)

  datatype Config = Config(clearing: Clearing, keyDelayRepeat: int, keyRepeat: int)

  // What an X event amounts to once kb_find_button has located the button, and a timer tick.
  datatype UiEvent = ButtonPress(hit: Option<Button>) | ButtonRelease | TimerTick

  // The switches are the layouts that kb_switch_layout was called with, in this order.
  datatype Ui = Ui(sticky: Sticky, latches: set<ModKey>, pipe: seq<Event>, timer: Timer,
                   active: Option<Button>, alive: bool, switches: seq<int>)

  // A call whose new state is dropped, as on a press or a repeat, and one whose new state is kept.
  function CallOn(cfg: Config, u: Ui, b: Button, updown: int): Ui {
    var o := Call(cfg.clearing, u.latches, b.scancode, updown);
    var sticky := if b.scancode == QUIT_CODE || updown != 0 then Held(u.sticky, b.modifier) else Pressed(u.sticky, b.modifier);
    u.(sticky := sticky, latches := o.latches, pipe := u.pipe + o.events, alive := u.alive && b.scancode != QUIT_CODE)
  }

  // The layout switch made when the button is released.
  function SwitchOf(b: Button): (switches: seq<int>)
    ensures switches == [] <==> b.layoutSwitch < 0
    ensures switches != [] ==> switches == [b.layoutSwitch]
  {
    if b.layoutSwitch > -1 then [b.layoutSwitch] else []
  }

  function UiStep(cfg: Config, u: Ui, input: UiEvent): Ui {
    if !u.alive then u
    else match input
      case ButtonPress(hit) =>
        if hit.None? then u.(active := None) else CallOn(cfg, u.(active := hit), hit.value, 1)
      case ButtonRelease =>
        if u.active.None? then u
        else
          var called := CallOn(cfg, u, u.active.value, 0);
          if called.alive then called.(active := None, switches := u.switches + SwitchOf(u.active.value)) else called
      case TimerTick =>
        if u.active.None? then u.(timer := RESET)
        else
          var ticked := u.(timer := Tick(u.timer, cfg.keyDelayRepeat, cfg.keyRepeat));
          if FiresNow(u.timer, cfg.keyDelayRepeat, cfg.keyRepeat) then CallOn(cfg, ticked, u.active.value, 2) else ticked
  }

  function UiRun(cfg: Config, u: Ui, inputs: seq<UiEvent>): Ui
    decreases |inputs|
  {
    if inputs == [] then u else UiRun(cfg, UiStep(cfg, u, inputs[0]), inputs[1..])
  }

  class Keypad {
    const cfg: Config
    var state: set<Flag>
    var stateLocked: set<Flag>
    var bthidState: set<ModKey>
    var pipe: seq<Event>
    var timer: int
    var delay: bool
    var active: Option<Button>
    var alive: bool
    var switches: seq<int>

    constructor (cfg: Config)
      ensures this.cfg == cfg
      ensures Abs() == Ui(Sticky({}, {}), {}, [], RESET, None, true, [])
    {
      this.cfg := cfg;
      state, stateLocked, bthidState, pipe := {}, {}, {}, [];
      timer, delay, active, alive, switches := 0, false, None, true, [];
    }

    ghost function Abs(): Ui
      reads this
    {
      Ui(Sticky(state, stateLocked), bthidState, pipe, Timer(timer, delay), active, alive, switches)
    }

    method BthidSend(key: int, updown: int)
      modifies this`pipe
      ensures pipe == old(pipe) + [Send(key, updown)]
    {
      var kind := if key == QUIT_CODE then QUIT_TYPE else EV_KEY;
      pipe := pipe + [Event(kind, key % 0x10000, updown)];
    }

    // The first half of bthid_process_keypress, and all of what kb_process_keypress does to the state.
    method NewState(modifier: Option<Flag>) returns (newState: set<Flag>)
      modifies this`stateLocked
      ensures Sticky(newState, stateLocked) == Pressed(old(Abs().sticky), modifier)
    {
      AnySticky(state);
      newState := state;
      if modifier.Some? && modifier.value != Caps {
        var m := modifier.value;
        if m in stateLocked {
          stateLocked := Flip(stateLocked, m);
          newState := Flip(newState, m);
        } else if m in newState {
          stateLocked := Flip(stateLocked, m);
        } else {
          newState := Flip(newState, m);
        }
      } else if modifier.Some? {
        newState := Flip(newState, Caps);
      } else if Shift in state || Mod in state || Ctrl in state || Meta in state || Alt in state {
        newState := newState * {Caps};
        newState := newState + stateLocked;
      }
    }

    // One toggle of a left modifier key, on the call that goes down.
    method Toggle(m: ModKey, updown: int)
      requires m in LEFT
      modifies this`pipe, this`bthidState
      ensures Outcome(bthidState, pipe)
              == var o := Call(cfg.clearing, old(bthidState), CodeOf(m), updown); Outcome(o.latches, old(pipe) + o.events)
    {
      CodesRoundTrip(m);
      if updown != 0 {
        if m in bthidState {
          BthidSend(CodeOf(m), 0);
          bthidState := Clear(cfg.clearing, bthidState, m);
        } else {
          BthidSend(CodeOf(m), 1);
          bthidState := bthidState + {m};
        }
      }
    }

    // One of the clears that follow another key.
    method Release(m: ModKey)
      modifies this`pipe, this`bthidState
      ensures Outcome(bthidState, pipe) == Drop(cfg.clearing, Outcome(old(bthidState), old(pipe)), m)
    {
      if m in bthidState {
        BthidSend(CodeOf(m), 0);
        bthidState := Clear(cfg.clearing, bthidState, m);
      }
    }

    method BthidProcessKeypress(b: Button, updown: int) returns (newState: set<Flag>)
      requires alive
      modifies this`stateLocked, this`pipe, this`bthidState, this`alive
      ensures Sticky(newState, stateLocked) == Pressed(old(Abs().sticky), b.modifier)
      ensures Abs() == CallOn(cfg, old(Abs()), b, updown).(sticky := Sticky(old(state), stateLocked))
    {
      newState := NewState(b.modifier);
      if b.scancode == KEY_LEFTALT {
        Toggle(LeftAlt, updown);
      } else if b.scancode == KEY_LEFTCTRL {
        Toggle(LeftCtrl, updown);
      } else if b.scancode == KEY_LEFTSHIFT {
        Toggle(LeftShift, updown);
      } else {
        BthidSend(b.scancode, updown);
        if b.scancode == QUIT_CODE {
          alive := false;
          return;
        }
        ghost var o := Outcome(bthidState, [Send(b.scancode, updown)]);
        Release(LeftAlt);
        Release(LeftCtrl);
        Release(LeftShift);
        DropPrefix(cfg.clearing, o, old(pipe));
      }
    }

    // The layout switch that kb_handle_events makes at a release. What it does to the layouts is
    // Layouts.Keyboard.SwitchLayout.
    method KbSwitchLayout(b: Button)
      modifies this`switches
      ensures switches == old(switches) + SwitchOf(b)
    {
      if b.layoutSwitch > -1 {
        switches := switches + [b.layoutSwitch];
      }
    }

    // kb_handle_events. The keyboard does not survive the quit key.
    method KbHandleEvents(input: UiEvent)
      requires alive && !input.TimerTick?
      modifies this
      ensures Abs() == UiStep(cfg, old(Abs()), input)
    {
      match input
      case ButtonPress(hit) =>
        active := hit;
        if active.Some? {
          var dropped := BthidProcessKeypress(active.value, 1);
        }
      case ButtonRelease =>
        if active.Some? {
          var newState := BthidProcessKeypress(active.value, 0);
          if !alive { return; }
          if newState != state || (active.value.modifier.Some? && active.value.modifier.value in newState) {
            state := newState;
          }
          KbSwitchLayout(active.value);
          active := None;
        }
    }

    // kb_do_repeat.
    method KbDoRepeat()
      requires alive
      modifies this
      ensures Abs() == UiStep(cfg, old(Abs()), TimerTick)
    {
      if active.None? {
        timer, delay := 0, false;
        return;
      }
      timer := timer + 1;
      if (delay && timer == cfg.keyRepeat) || (!delay && timer == cfg.keyDelayRepeat) {
        var dropped := BthidProcessKeypress(active.value, 2);
        timer := 0;
        delay := true;
      }
    }
  }

  // The three clears do not depend on what the pipe already holds.
  lemma {:induction false} DropPrefix(how: Clearing, o: Outcome, before: seq<Event>)
    ensures var p := Outcome(o.latches, before + o.events);
            var all := Drop(how, Drop(how, Drop(how, o, LeftAlt), LeftCtrl), LeftShift);
            Drop(how, Drop(how, Drop(how, p, LeftAlt), LeftCtrl), LeftShift) == Outcome(all.latches, before + all.events)
  {
    DropOnePrefix(how, o, LeftAlt, before);
    DropOnePrefix(how, Drop(how, o, LeftAlt), LeftCtrl, before);
    DropOnePrefix(how, Drop(how, Drop(how, o, LeftAlt), LeftCtrl), LeftShift, before);
  }

  lemma {:induction false} DropOnePrefix(how: Clearing, o: Outcome, m: ModKey, before: seq<Event>)
    ensures Drop(how, Outcome(o.latches, before + o.events), m)
            == Outcome(Drop(how, o, m).latches, before + Drop(how, o, m).events)
  {
    assert before + o.events + [Send(CodeOf(m), 0)] == before + (o.events + [Send(CodeOf(m), 0)]);
  }
}
