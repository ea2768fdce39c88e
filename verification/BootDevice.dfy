// The device side, bthid in hidcd.c: a loop that reads key events from the pipe and sends
// boot-keyboard reports (section 8.3 and appendix B.1 of the USB Device Class Definition for
// HID 1.11) once the host has asked for the boot protocol with SET_PROTOCOL (section 7.4.6 of the
// Bluetooth HID Profile 1.0).
module BootDevice {
  import opened Wrappers
  import opened Latches

  type Byte = b: int | 0 <= b < 256

  const POWERS: seq<int> := [1, 2, 4, 8, 16, 32, 64, 128]
  const SET_PROTOCOL_BOOT: Byte := 0x70

  // The usage of every keycode: keycode2hidp, an arbitrary table of 256 bytes here.
  type Usages = t: seq<Byte> | |t| == 256 witness seq(256, _ => 0)

  function UsageOf(usages: Usages, code: int): Byte {
    if 0 <= code < 256 then usages[code] else 0
  }

  function BitIndex(m: ModKey): (i: nat)
    ensures i < 8
  {
    match m
    case LeftCtrl => 0
    case LeftShift => 1
    case LeftAlt => 2
    case RightCtrl => 4
    case RightShift => 5
    case RightAlt => 6
  }

  // C's bitwise or, binary digit by binary digit.
  function Or(a: nat, b: nat): nat {
    if a == 0 then b
    else if b == 0 then a
    else 2 * Or(a / 2, b / 2) + if a % 2 == 1 || b % 2 == 1 then 1 else 0
  }

  predicate IsBitmask(bits: seq<int>) {
    |bits| == 8 && forall i | 0 <= i < 8 :: bits[i] == 0 || bits[i] == 1
  }

  // The sum of bits[i] << i over the first n bits.
  function ByteSum(bits: seq<int>, n: nat): (sum: int)
    requires IsBitmask(bits) && n <= 8
    ensures 0 <= sum
    ensures n < 8 ==> sum < POWERS[n]
    ensures n == 8 ==> sum < 256
  {
    if n == 0 then 0 else ByteSum(bits, n - 1) + bits[n - 1] * POWERS[n - 1]
  }

  lemma {:induction false} ZeroSum(n: nat)
    requires n <= 8
    ensures ByteSum([0, 0, 0, 0, 0, 0, 0, 0], n) == 0
  {
    if n > 0 {
      ZeroSum(n - 1);
    }
  }

  function ModifierByte(bits: seq<int>): Byte
    requires IsBitmask(bits)
  {
    ByteSum(bits, 8)
  }

  function Report(modifiers: Byte, usage: Byte): seq<Byte> {
    [0xa1, 0x01, modifiers, 0, usage, 0, 0, 0, 0, 0]
  }

  // ---------- one key event ----------

  datatype Core = Core(bits: seq<int>, modifiers: Byte, press: int) {
    predicate Valid() { IsBitmask(bits) && modifiers == ModifierByte(bits) }
  }

  datatype Reaction = Reaction(core: Core, report: Option<seq<Byte>>)

  // The effect of a key event after the handshake: a report goes out when the press count or the
  // modifier byte changed, with the usage of the key if it went down.
  function React(usages: Usages, c: Core, e: Event): (r: Reaction)
    requires c.Valid()
    ensures r.core.Valid()
  {
    match Classify(e.code)
    case Modifier(m) =>
      var bits := c.bits[BitIndex(m) := if e.value != 0 then 1 else 0];
      var core := Core(bits, ModifierByte(bits), c.press);
      Reaction(core, if core.modifiers != c.modifiers then Some(Report(core.modifiers, 0)) else None)
    case Ordinary =>
      if e.value > 0
      then Reaction(c.(press := c.press + 1), Some(Report(c.modifiers, UsageOf(usages, e.code))))
      else Reaction(c.(press := c.press - 1), Some(Report(c.modifiers, 0)))
  }

  // ---------- the loop ----------

  datatype Packet = Input(bytes: seq<Byte>) | Reply(bytes: seq<Byte>)

  datatype PipeRead = PipeQuiet | PipeFailed | PipeEvent(event: Event)

  datatype SocketRead = SocketQuiet | SocketFailed | SocketData(bytes: seq<Byte>)

  // What one poll found: it failed, or some of the pipe, the control channel and the interrupt
  // channel were ready. writeOk says whether a report can be written.
  datatype Wakeup = PollFailed | Ready(pipe: PipeRead, control: SocketRead, interrupt: SocketRead, writeOk: bool)

  datatype Loop = Loop(handshaken: bool, core: Core, out: seq<Packet>, running: bool, sessions: nat)

  const START := Loop(false, Core([0, 0, 0, 0, 0, 0, 0, 0], 0, 0), [], true, 1)

  datatype Next = Continue(loop: Loop) | Disconnect(loop: Loop) | Exit(loop: Loop)

  function OnPipe(usages: Usages, s: Loop, read: PipeRead, writeOk: bool): (next: Next)
    requires s.core.Valid()
    ensures next.loop.core.Valid()
  {
    match read
    case PipeQuiet => Continue(s)
    case PipeFailed => Exit(s)
    case PipeEvent(e) =>
      if e.kind == QUIT_TYPE then (if e.value == QUIT_CODE then Disconnect(s) else Continue(s))
      else if e.kind != EV_KEY || !s.handshaken then Continue(s)
      else
        var r := React(usages, s.core, e);
        match r.report
        case None => Continue(s.(core := r.core))
        case Some(bytes) =>
          if writeOk then Continue(s.(core := r.core, out := s.out + [Input(bytes)]))
          else Exit(s.(core := r.core))
  }

  function OnControl(s: Loop, read: SocketRead): (next: Next)
    ensures next.loop.core == s.core
  {
    match read
    case SocketQuiet => Continue(s)
    case SocketFailed => Disconnect(s)
    case SocketData(bytes) =>
      if !s.handshaken && bytes == [SET_PROTOCOL_BOOT]
      then Continue(s.(handshaken := true, out := s.out + [Reply([0])]))
      else Continue(s)
  }

  // Leaving the inner loop closes the connection and waits for the next one.
  function Settle(next: Next): Loop {
    match next
    case Continue(s) => s
    case Disconnect(s) => s.(sessions := s.sessions + 1)
    case Exit(s) => s.(running := false)
  }

  // One pass of the inner loop.
  function Iterate(usages: Usages, s: Loop, w: Wakeup): (s': Loop)
    requires s.core.Valid()
    ensures s'.core.Valid()
  {
    if !s.running then s
    else match w
      case PollFailed => Settle(Disconnect(s))
      case Ready(pipe, control, interrupt, writeOk) =>
        match OnPipe(usages, s, pipe, writeOk)
        case Continue(s1) =>
          (match OnControl(s1, control)
           case Continue(s2) => if interrupt.SocketFailed? then Settle(Disconnect(s2)) else s2
           case other => Settle(other))
        case other => Settle(other)
  }

  function Run(usages: Usages, s: Loop, ws: seq<Wakeup>): (s': Loop)
    requires s.core.Valid()
    ensures s'.core.Valid()
    decreases |ws|
  {
    if ws == [] then s else Run(usages, Iterate(usages, s, ws[0]), ws[1..])
  }

  // ---------- the loop, step by step ----------

  // An event whose usage is not looked up, or is in the table.
  predicate InTable(e: Event) {
    e.kind == EV_KEY && e.value > 0 && Classify(e.code).Ordinary? ==> 0 <= e.code < 256
  }

  class Device {
    var state: int
    var modifiers: Byte
    var press: int
    const bitmask: array<int>
    const pkg: array<Byte>
    var out: seq<Packet>
    var running: bool
    var sessions: nat

    constructor ()
      ensures Valid() && Abs() == START && fresh(bitmask) && fresh(pkg)
    {
      state, modifiers, press, out, running, sessions := 0, 0, 0, [], true, 1;
      bitmask := new int[8](_ => 0);
      pkg := new Byte[12](_ => 0);
      new;
      assert bitmask[..] == START.core.bits;
      ZeroSum(8);
    }

    ghost predicate Valid()
      reads this, bitmask
    {
      && bitmask.Length == 8 && pkg.Length == 12 && IsBitmask(bitmask[..])
      && pkg as object != bitmask as object
      && modifiers == ModifierByte(bitmask[..])
      && (state == 0 || state == 1)
    }

    ghost function Abs(): (s: Loop)
      requires Valid()
      reads this, bitmask
      ensures s.core.Valid()
    {
      Loop(state == 1, Core(bitmask[..], modifiers, press), out, running, sessions)
    }

    // One pass of the inner loop. The source looks the usage of an ordinary key up when it goes down,
    // after the handshake, in a table of 256 entries.
    method Step(usages: Usages, w: Wakeup)
      requires Valid() && running
      requires w.Ready? && w.pipe.PipeEvent? && state == 1 ==> InTable(w.pipe.event)
      modifies this, bitmask, pkg
      ensures Valid() && Abs() == Iterate(usages, old(Abs()), w)
    {
      if w.PollFailed? {
        sessions := sessions + 1;
        return;
      }
      ClearPackage();
      var left := HandlePipe(usages, w.pipe, w.writeOk);
      if !running { return; }
      if left {
        sessions := sessions + 1;
        return;
      }
      match w.control {
        case SocketQuiet =>
        case SocketFailed =>
          sessions := sessions + 1;
          return;
        case SocketData(bytes) =>
          HandleControl(bytes);
      }
      if w.interrupt.SocketFailed? {
        sessions := sessions + 1;
      }
    }

    // What the pipe had. The connection is left at the quit event, and the program ends if reading or
    // writing fails.
    method HandlePipe(usages: Usages, read: PipeRead, writeOk: bool) returns (left: bool)
      requires Valid() && running && forall i | 0 <= i < 12 :: pkg[i] == 0
      requires read.PipeEvent? && state == 1 ==> InTable(read.event)
      modifies this`modifiers, this`press, this`out, this`running, bitmask, pkg
      ensures Valid()
      ensures OnPipe(usages, old(Abs()), read, writeOk)
              == if !running then Exit(Abs().(running := true)) else if left then Disconnect(Abs()) else Continue(Abs())
    {
      left := false;
      match read {
        case PipeQuiet =>
        case PipeFailed =>
          running := false;
        case PipeEvent(e) =>
          if e.kind == QUIT_TYPE {
            left := e.value == QUIT_CODE;
          } else if e.kind == EV_KEY {
            if state == 1 {
              HandleKey(usages, e, writeOk);
            }
          }
      }
    }

    // The reply to the host's SET_PROTOCOL.
    method HandleControl(bytes: seq<Byte>)
      requires Valid()
      modifies this`out, this`state, pkg
      ensures Valid() && Continue(Abs()) == OnControl(old(Abs()), SocketData(bytes))
    {
      if state == 0 && |bytes| == 1 && bytes[0] == SET_PROTOCOL_BOOT {
        ghost var bits := bitmask[..];
        pkg[0] := 0;
        assert pkg[..1] == [0] && bitmask[..] == bits;
        out := out + [Reply(pkg[..1])];
        state := 1;
      }
    }

    method ClearPackage()
      requires pkg.Length == 12
      modifies pkg
      ensures forall i | 0 <= i < 12 :: pkg[i] == 0
    {
      forall i | 0 <= i < 12 { pkg[i] := 0; }
    }

    method HandleKey(usages: Usages, e: Event, writeOk: bool)
      requires Valid() && running && state == 1 && e.kind == EV_KEY && InTable(e)
      requires forall i | 0 <= i < 12 :: pkg[i] == 0
      modifies this`modifiers, this`press, this`out, this`running, bitmask, pkg
      ensures Valid()
      ensures OnPipe(usages, old(Abs()), PipeEvent(e), writeOk)
              == if running then Continue(Abs()) else Exit(Abs().(running := true))
    {
      var modifiersOld, pressOld := modifiers, press;
      NoteKey(usages, e);
      SumModifiers();
      ghost var r := React(usages, old(Abs()).core, e);
      assert Abs().core == r.core;
      assert r.report == if press != pressOld || modifiers != modifiersOld then Some(Report(modifiers, pkg[4])) else None;
      if press != pressOld || modifiers != modifiersOld {
        SendReport(writeOk);
      }
    }

    // The counter and the bit that an event changes, and the usage in the package.
    method NoteKey(usages: Usages, e: Event)
      requires Valid() && e.kind == EV_KEY && InTable(e)
      requires forall i | 0 <= i < 12 :: pkg[i] == 0
      modifies this`press, bitmask, pkg
      ensures IsBitmask(bitmask[..]) && press == React(usages, old(Abs()).core, e).core.press
      ensures bitmask[..] == React(usages, old(Abs()).core, e).core.bits
      ensures pkg[4] == if Classify(e.code).Ordinary? && e.value > 0 then usages[e.code] else 0
    {
      match Classify(e.code) {
        case Modifier(m) =>
          bitmask[BitIndex(m)] := if e.value != 0 then 1 else 0;
        case Ordinary =>
          if e.value > 0 {
            pkg[4] := usages[e.code];
            press := press + 1;
          } else {
            press := press - 1;
          }
      }
    }

    // The rest of the package, and the write.
    method SendReport(writeOk: bool)
      requires pkg.Length == 12 && running
      modifies this`out, this`running, pkg
      ensures running == writeOk
      ensures out == if writeOk then old(out) + [Input(Report(modifiers, old(pkg[4])))] else old(out)
    {
      pkg[0], pkg[1], pkg[2], pkg[3] := 0xa1, 0x01, modifiers, 0;
      pkg[5], pkg[6], pkg[7], pkg[8], pkg[9] := 0, 0, 0, 0, 0;
      assert pkg[..10] == Report(modifiers, pkg[4]);
      if writeOk {
        out := out + [Input(pkg[..10])];
      } else {
        running := false;
      }
    }

    // modifiers |= bitmask[i] << i, for every i.
    method SumModifiers()
      requires bitmask.Length == 8 && IsBitmask(bitmask[..])
      modifies this`modifiers
      ensures modifiers == ModifierByte(bitmask[..])
    {
      modifiers := 0;
      var i := 0;
      while i < 8
        invariant 0 <= i <= 8 && modifiers == ByteSum(bitmask[..], i)
      {
        OrIsSum(modifiers, bitmask[i], i);
        assert ByteSum(bitmask[..], i + 1) == modifiers + bitmask[i] * POWERS[i];
        modifiers := Or(modifiers, bitmask[i] * POWERS[i]);
        i := i + 1;
      }
    }
  }

  // Or-ing in a bit above all those that are set adds it.
  lemma {:induction false} OrIsSum(x: nat, bit: nat, i: nat)
    requires i < 8 && x < POWERS[i] && bit <= 1
    ensures Or(x, bit * POWERS[i]) == x + bit * POWERS[i]
  {
    if i > 0 && bit == 1 {
      var half := POWERS[i - 1];
      assert POWERS[i] == 2 * half && half > 0;
      OrIsSum(x / 2, 1, i - 1);
      OrOfEven(x, half);
    }
  }

  lemma {:induction false} OrOfEven(x: nat, half: nat)
    requires half > 0
    ensures Or(x, 2 * half) == 2 * Or(x / 2, half) + x % 2
  {
    assert (2 * half) / 2 == half && (2 * half) % 2 == 0;
  }

  // ---------- what the loop keeps, on every run ----------

  function Inputs(out: seq<Packet>): seq<seq<Byte>> {
    if out == [] then []
    else Inputs(out[..|out| - 1]) + if out[|out| - 1].Input? then [out[|out| - 1].bytes] else []
  }

  function LastModifiers(out: seq<Packet>): int {
    var reports := Inputs(out);
    if reports == [] || |reports[|reports| - 1]| < 3 then 0 else reports[|reports| - 1][2]
  }

  // The host sees nothing before the reply to its SET_PROTOCOL, one such reply, and reports after it.
  predicate HandshakeFirst(s: Loop) {
    && (s.handshaken <==> s.out != [])
    && (s.out != [] ==> s.out[0] == Reply([0]))
    && forall i | 1 <= i < |s.out| :: s.out[i].Input?
  }

  predicate Mirrors(s: Loop) {
    && s.core.Valid()
    && HandshakeFirst(s)
    && (s.running ==> LastModifiers(s.out) == s.core.modifiers)
  }

  lemma {:induction false} InputsSnoc(out: seq<Packet>, p: Packet)
    ensures Inputs(out + [p]) == Inputs(out) + if p.Input? then [p.bytes] else []
  {
    assert (out + [p])[..|out + [p]| - 1] == out;
  }

  lemma {:induction false} PipeMirrors(usages: Usages, s: Loop, read: PipeRead, writeOk: bool)
    requires Mirrors(s) && s.running
    ensures var next := OnPipe(usages, s, read, writeOk);
            Mirrors(next.loop.(running := !next.Exit?)) && next.loop.running
  {
    if read.PipeEvent? && read.event.kind == EV_KEY && s.handshaken {
      var r := React(usages, s.core, read.event);
      if r.report.Some? {
        ReportMirrors(s, r.core, r.report.value);
      }
    }
  }

  // A report of the current modifier byte after the handshake.
  lemma {:induction false} ReportMirrors(s: Loop, core: Core, report: seq<Byte>)
    requires Mirrors(s) && s.handshaken && core.Valid() && |report| == 10 && report[2] == core.modifiers
    ensures Mirrors(s.(core := core, out := s.out + [Input(report)]))
  {
    InputsSnoc(s.out, Input(report));
  }

  lemma {:induction false} ControlMirrors(s: Loop, read: SocketRead)
    requires Mirrors(s)
    ensures Mirrors(OnControl(s, read).loop)
  {
    InputsSnoc(s.out, Reply([0]));
  }

  lemma {:induction false} IterateMirrors(usages: Usages, s: Loop, w: Wakeup)
    requires Mirrors(s)
    ensures Mirrors(Iterate(usages, s, w))
  {
    if s.running && w.Ready? {
      PipeMirrors(usages, s, w.pipe, w.writeOk);
      var next := OnPipe(usages, s, w.pipe, w.writeOk);
      if next.Continue? {
        ControlMirrors(next.loop, w.control);
      }
    }
  }

  // On every run, through any reconnects: the modifier byte of the last report (0 before the first)
  // is the sum of bitmask[i] << i, no report precedes the handshake, and the handshake is answered
  // at most once.
  lemma {:induction false} MirrorOnEveryRun(usages: Usages, s: Loop, ws: seq<Wakeup>)
    requires Mirrors(s)
    ensures Mirrors(Run(usages, s, ws))
    decreases |ws|
  {
    if ws != [] {
      IterateMirrors(usages, s, ws[0]);
      MirrorOnEveryRun(usages, Iterate(usages, s, ws[0]), ws[1..]);
    }
  }

  lemma {:induction false} StartMirrors()
    ensures Mirrors(START)
  {
  }

  // ---------- how many reports ----------

  // The key events that a pass processes.
  function Processed(s: Loop, w: Wakeup): seq<Event> {
    if s.running && s.handshaken && w.Ready? && w.pipe.PipeEvent? && w.pipe.event.kind == EV_KEY
    then [w.pipe.event] else []
  }

  function AllProcessed(usages: Usages, s: Loop, ws: seq<Wakeup>): seq<Event>
    requires s.core.Valid()
    decreases |ws|
  {
    if ws == [] then [] else Processed(s, ws[0]) + AllProcessed(usages, Iterate(usages, s, ws[0]), ws[1..])
  }

  // The number of reports that an event deserves: one for an ordinary key, one for a modifier key
  // that actually changes.
  function Worth(wire: set<ModKey>, e: Event): nat {
    if Classify(e.code).Ordinary? || WireStep(wire, e) != wire then 1 else 0
  }

  function Activity(wire: set<ModKey>, events: seq<Event>): nat
    decreases |events|
  {
    if events == [] then 0
    else Worth(wire, events[0]) + Activity(WireStep(wire, events[0]), events[1..])
  }

  // Downs (and repeats) minus ups of ordinary keys.
  function Balance(events: seq<Event>): int {
    if events == [] then 0
    else (if !Classify(events[0].code).Ordinary? then 0 else if events[0].value > 0 then 1 else -1)
         + Balance(events[1..])
  }

  // The modifier key that a bit stands for; two bits stand for keys the keyboard does not have.
  function KeyAt(i: nat): Option<ModKey> {
    match i
    case 0 => Some(LeftCtrl)
    case 1 => Some(LeftShift)
    case 2 => Some(LeftAlt)
    case 4 => Some(RightCtrl)
    case 5 => Some(RightShift)
    case 6 => Some(RightAlt)
    case _ => None
  }

  function BitAt(wire: set<ModKey>, i: nat): int {
    if KeyAt(i).Some? && KeyAt(i).value in wire then 1 else 0
  }

  // The bitmask of a set of modifier keys.
  function BitsOf(wire: set<ModKey>): (bits: seq<int>)
    ensures IsBitmask(bits)
  {
    [BitAt(wire, 0), BitAt(wire, 1), BitAt(wire, 2), BitAt(wire, 3),
     BitAt(wire, 4), BitAt(wire, 5), BitAt(wire, 6), BitAt(wire, 7)]
  }

  lemma {:induction false} BitIs(wire: set<ModKey>, i: nat)
    requires i < 8
    ensures BitsOf(wire)[i] == BitAt(wire, i)
  {
  }

  lemma {:induction false} IndexOfKey(m: ModKey, i: nat)
    ensures KeyAt(i) == Some(m) <==> i == BitIndex(m)
  {
  }

  lemma {:induction false} ByteSpelledOut(bits: seq<int>)
    requires IsBitmask(bits)
    ensures ModifierByte(bits) == bits[0] + 2 * bits[1] + 4 * bits[2] + 8 * bits[3]
                                  + 16 * bits[4] + 32 * bits[5] + 64 * bits[6] + 128 * bits[7]
  {
    assert ByteSum(bits, 1) == bits[0];
    assert ByteSum(bits, 2) == ByteSum(bits, 1) + 2 * bits[1];
    assert ByteSum(bits, 3) == ByteSum(bits, 2) + 4 * bits[2];
    assert ByteSum(bits, 4) == ByteSum(bits, 3) + 8 * bits[3];
    assert ByteSum(bits, 5) == ByteSum(bits, 4) + 16 * bits[4];
    assert ByteSum(bits, 6) == ByteSum(bits, 5) + 32 * bits[5];
    assert ByteSum(bits, 7) == ByteSum(bits, 6) + 64 * bits[6];
    assert ByteSum(bits, 8) == ByteSum(bits, 7) + 128 * bits[7];
  }

  // A sum of bits tells every bit.
  lemma {:induction false} SumTellsBits(a: seq<int>, b: seq<int>, n: nat)
    requires IsBitmask(a) && IsBitmask(b) && n <= 8 && ByteSum(a, n) == ByteSum(b, n)
    ensures forall i | 0 <= i < n :: a[i] == b[i]
  {
    if n > 0 {
      var (lowA, lowB, power) := (ByteSum(a, n - 1), ByteSum(b, n - 1), POWERS[n - 1]);
      assert 0 <= lowA < power && 0 <= lowB < power;
      assert lowA + a[n - 1] * power == lowB + b[n - 1] * power;
      SumTellsBits(a, b, n - 1);
    }
  }

  // Different sets of modifier keys give different modifier bytes.
  lemma {:induction false} ByteIsInjective(a: set<ModKey>, b: set<ModKey>)
    ensures ModifierByte(BitsOf(a)) == ModifierByte(BitsOf(b)) <==> a == b
  {
    if ModifierByte(BitsOf(a)) == ModifierByte(BitsOf(b)) {
      SumTellsBits(BitsOf(a), BitsOf(b), 8);
      forall m: ModKey ensures m in a <==> m in b {
        IndexOfKey(m, BitIndex(m));
        BitIs(a, BitIndex(m));
        BitIs(b, BitIndex(m));
      }
    }
  }

  lemma {:induction false} BitsAfter(wire: set<ModKey>, m: ModKey)
    ensures BitsOf(wire)[BitIndex(m) := 1] == BitsOf(wire + {m})
    ensures BitsOf(wire)[BitIndex(m) := 0] == BitsOf(wire - {m})
  {
    forall i | 0 <= i < 8
      ensures BitsOf(wire)[BitIndex(m) := 1][i] == BitsOf(wire + {m})[i]
      ensures BitsOf(wire)[BitIndex(m) := 0][i] == BitsOf(wire - {m})[i]
    {
      IndexOfKey(m, i);
      BitIs(wire, i);
      BitIs(wire + {m}, i);
      BitIs(wire - {m}, i);
    }
  }

  // The device's core follows the wire: after an event its bitmask is that of the keys now down,
  // and it reports exactly the ordinary keys and the actual modifier changes.
  lemma {:induction false} ReactFollowsWire(usages: Usages, c: Core, e: Event, wire: set<ModKey>)
    requires c.Valid() && c.bits == BitsOf(wire) && e.kind == EV_KEY
    ensures var r := React(usages, c, e);
            && r.core.bits == BitsOf(WireStep(wire, e))
            && (r.report.Some? <==> Classify(e.code).Ordinary? || WireStep(wire, e) != wire)
            && r.core.press == c.press + Balance([e])
  {
    assert [e][1..] == [];
    if Classify(e.code).Modifier? {
      var m := Classify(e.code).key;
      BitsAfter(wire, m);
      ByteIsInjective(wire, WireStep(wire, e));
    }
  }

  lemma {:induction false} BalanceCons(e: Event, rest: seq<Event>)
    ensures Balance([e] + rest) == Balance([e]) + Balance(rest)
  {
    assert ([e] + rest)[1..] == rest && [e][1..] == [];
  }

  // ---------- a stream of key events, away from the loop ----------

  datatype Fed = Fed(core: Core, reports: seq<seq<Byte>>)

  function Feed(usages: Usages, c: Core, events: seq<Event>): (f: Fed)
    requires c.Valid()
    ensures f.core.Valid()
    decreases |events|
  {
    if events == [] then Fed(c, [])
    else
      var r := React(usages, c, events[0]);
      var rest := Feed(usages, r.core, events[1..]);
      Fed(rest.core, (if r.report.Some? then [r.report.value] else []) + rest.reports)
  }

  lemma {:induction false} FeedAppend(usages: Usages, c: Core, a: seq<Event>, b: seq<Event>)
    requires c.Valid()
    ensures var f := Feed(usages, c, a);
            Feed(usages, c, a + b) == Fed(Feed(usages, f.core, b).core, f.reports + Feed(usages, f.core, b).reports)
    decreases |a|
  {
    if a == [] {
      assert a + b == b;
    } else {
      assert (a + b)[0] == a[0] && (a + b)[1..] == a[1..] + b;
      var r := React(usages, c, a[0]);
      FeedAppend(usages, r.core, a[1..], b);
      var f := Feed(usages, r.core, a[1..]);
      var first := if r.report.Some? then [r.report.value] else [];
      var last := Feed(usages, f.core, b).reports;
      assert first + (f.reports + last) == first + f.reports + last;
    }
  }

  // The reports of a stream count the ordinary key events and the actual changes of the modifier
  // keys, press is the downs minus the ups, and the bitmask follows the wire.
  lemma {:induction false} FeedCounts(usages: Usages, c: Core, events: seq<Event>, wire: set<ModKey>)
    requires c.Valid() && c.bits == BitsOf(wire) && forall e | e in events :: e.kind == EV_KEY
    ensures var f := Feed(usages, c, events);
            && |f.reports| == Activity(wire, events)
            && f.core.press == c.press + Balance(events)
            && f.core.bits == BitsOf(Wire(wire, events))
    decreases |events|
  {
    if events != [] {
      assert events[0] in events;
      ReactFollowsWire(usages, c, events[0], wire);
      FeedCounts(usages, React(usages, c, events[0]).core, events[1..], WireStep(wire, events[0]));
      assert events == [events[0]] + events[1..];
      BalanceCons(events[0], events[1..]);
    }
  }

  // On every run that is still going, what the loop has sent is what the stream of the key events
  // it processed produces; polls, failed reads, quit events and reconnects leave no trace in it.
  lemma {:induction false} LoopFeeds(usages: Usages, s: Loop, ws: seq<Wakeup>)
    requires s.core.Valid()
    ensures Delivers(usages, s, Run(usages, s, ws), AllProcessed(usages, s, ws))
    decreases |ws|
  {
    if ws == [] {
      assert Inputs(s.out) + [] == Inputs(s.out);
    } else {
      var next := Iterate(usages, s, ws[0]);
      OnePassFeeds(usages, s, ws[0]);
      LoopFeeds(usages, next, ws[1..]);
      if !next.running {
        StoppedStays(usages, next, ws[1..]);
      }
      DeliversJoin(usages, s, next, Run(usages, next, ws[1..]),
                   Processed(s, ws[0]), AllProcessed(usages, next, ws[1..]));
    }
  }

  // Between the two states the loop processed exactly these events and, if it still runs, sent
  // exactly what their stream produces.
  predicate Delivers(usages: Usages, s: Loop, end: Loop, events: seq<Event>)
    requires s.core.Valid()
  {
    var f := Feed(usages, s.core, events);
    end.core == f.core && (end.running ==> Inputs(end.out) == Inputs(s.out) + f.reports)
  }

  lemma {:induction false} DeliversJoin(usages: Usages, s: Loop, mid: Loop, end: Loop, a: seq<Event>, b: seq<Event>)
    requires s.core.Valid() && mid.core.Valid() && (end.running ==> mid.running)
    requires Delivers(usages, s, mid, a) && Delivers(usages, mid, end, b)
    ensures Delivers(usages, s, end, a + b)
  {
    FeedAppend(usages, s.core, a, b);
    var f, g := Feed(usages, s.core, a), Feed(usages, mid.core, b);
    assert Inputs(s.out) + f.reports + g.reports == Inputs(s.out) + (f.reports + g.reports);
  }

  lemma {:induction false} OnlyKeyEvents(usages: Usages, s: Loop, ws: seq<Wakeup>)
    requires s.core.Valid()
    ensures forall e | e in AllProcessed(usages, s, ws) :: e.kind == EV_KEY
    decreases |ws|
  {
    if ws != [] {
      OnlyKeyEvents(usages, Iterate(usages, s, ws[0]), ws[1..]);
    }
  }

  lemma {:induction false} PipeFeeds(usages: Usages, s: Loop, w: Wakeup)
    requires s.core.Valid() && s.running && w.Ready?
    ensures var f := Feed(usages, s.core, Processed(s, w));
            var next := OnPipe(usages, s, w.pipe, w.writeOk);
            && next.loop.core == f.core
            && (!next.Exit? ==> Inputs(next.loop.out) == Inputs(s.out) + f.reports)
  {
    if Processed(s, w) == [] {
      assert Inputs(s.out) + [] == Inputs(s.out);
    } else {
      var r := React(usages, s.core, w.pipe.event);
      FeedOne(usages, s.core, w.pipe.event);
      if r.report.Some? {
        InputsSnoc(s.out, Input(r.report.value));
      } else {
        assert Inputs(s.out) + [] == Inputs(s.out);
      }
    }
  }

  lemma {:induction false} FeedOne(usages: Usages, c: Core, e: Event)
    requires c.Valid()
    ensures var r := React(usages, c, e);
            Feed(usages, c, [e]) == Fed(r.core, if r.report.Some? then [r.report.value] else [])
  {
    assert [e][1..] == [];
    assert Feed(usages, React(usages, c, e).core, []).reports == [];
  }

  lemma {:induction false} OnePassFeeds(usages: Usages, s: Loop, w: Wakeup)
    requires s.core.Valid()
    ensures Delivers(usages, s, Iterate(usages, s, w), Processed(s, w))
  {
    if s.running && w.Ready? {
      PipeFeeds(usages, s, w);
      InputsSnoc(OnPipe(usages, s, w.pipe, w.writeOk).loop.out, Reply([0]));
    } else {
      assert Inputs(s.out) + [] == Inputs(s.out);
    }
  }

  // On every run that is still going: the number of reports is that of the ordinary key events and
  // actual modifier changes processed, and press is the downs minus the ups.
  lemma {:induction false} ReportsCount(usages: Usages, s: Loop, ws: seq<Wakeup>, wire: set<ModKey>)
    requires s.core.Valid() && s.core.bits == BitsOf(wire) && Run(usages, s, ws).running
    ensures var end := Run(usages, s, ws);
            var events := AllProcessed(usages, s, ws);
            && |Inputs(end.out)| == |Inputs(s.out)| + Activity(wire, events)
            && end.core.press == s.core.press + Balance(events)
            && end.core.bits == BitsOf(Wire(wire, events))
  {
    LoopFeeds(usages, s, ws);
    OnlyKeyEvents(usages, s, ws);
    FeedCounts(usages, s.core, AllProcessed(usages, s, ws), wire);
  }

  lemma {:induction false} StoppedStays(usages: Usages, s: Loop, ws: seq<Wakeup>)
    requires s.core.Valid() && !s.running
    ensures Run(usages, s, ws) == s && AllProcessed(usages, s, ws) == []
    decreases |ws|
  {
    if ws != [] {
      StoppedStays(usages, s, ws[1..]);
    }
  }
}
