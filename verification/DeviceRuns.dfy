// What every run of the device loop does at its edges: when it shakes hands, which key events it then
// processes, when a connection or the program ends, and what every report looks like. The bytes and
// numbers of the protocols are written out here.
module DeviceRuns {
  import opened Wrappers
  import opened Latches
  import opened BootDevice

  // ---------- when the handshake happens ----------

  // A pass in which the host asks for the boot protocol: the quit event does not end the pass before
  // the control channel is read, and that holds the one byte of SET_PROTOCOL.
  predicate AsksForBoot(w: Wakeup) {
    && w.Ready? && w.control == SocketData([0x70])
    && !w.pipe.PipeFailed? && !(w.pipe.PipeEvent? && w.pipe.event.kind == 0xff && w.pipe.event.value == 0xffff)
  }

  // One pass that does not end the program.
  lemma {:induction false} PassHandshakes(usages: Usages, s: Loop, w: Wakeup)
    requires s.core.Valid() && Iterate(usages, s, w).running
    ensures Iterate(usages, s, w).handshaken <==> s.handshaken || AsksForBoot(w)
    ensures !s.handshaken && AsksForBoot(w) ==> Iterate(usages, s, w).out == s.out + [Reply([0])]
  {
  }

  // On every run that is still going, the device has shaken hands exactly if in some pass the host
  // asked for the boot protocol, and it has answered exactly then.
  lemma {:induction false} HandshakenExactly(usages: Usages, s: Loop, ws: seq<Wakeup>)
    requires Mirrors(s) && Run(usages, s, ws).running
    ensures var end := Run(usages, s, ws);
            && (end.handshaken <==> s.handshaken || exists n :: 0 <= n < |ws| && AsksForBoot(ws[n]))
            && (Reply([0]) in end.out <==> end.handshaken)
    decreases |ws|
  {
    if ws == [] {
      assert s.out != [] ==> s.out[0] in s.out;
    } else {
      var next := Iterate(usages, s, ws[0]);
      if !next.running {
        StoppedStays(usages, next, ws[1..]);
      }
      PassHandshakes(usages, s, ws[0]);
      IterateMirrors(usages, s, ws[0]);
      HandshakenExactly(usages, next, ws[1..]);
      assert forall n | 1 <= n < |ws| :: ws[n] == ws[1..][n - 1];
      assert forall n | 0 <= n < |ws[1..]| :: ws[1..][n] == ws[n + 1];
    }
  }

  // The key events that the passes find in the pipe.
  function KeyEvents(ws: seq<Wakeup>): seq<Event> {
    if ws == [] then []
    else (if ws[0].Ready? && ws[0].pipe.PipeEvent? && ws[0].pipe.event.kind == 1 then [ws[0].pipe.event] else [])
         + KeyEvents(ws[1..])
  }

  // After the handshake every key event is processed, through any reconnects.
  lemma {:induction false} HandshakenProcesses(usages: Usages, s: Loop, ws: seq<Wakeup>)
    requires s.core.Valid() && s.handshaken && Run(usages, s, ws).running
    ensures AllProcessed(usages, s, ws) == KeyEvents(ws)
    decreases |ws|
  {
    if ws != [] {
      var next := Iterate(usages, s, ws[0]);
      if !next.running {
        StoppedStays(usages, next, ws[1..]);
      }
      PassHandshakes(usages, s, ws[0]);
      HandshakenProcesses(usages, next, ws[1..]);
    }
  }

  // Before it none is.
  lemma {:induction false} UnaskedProcessesNothing(usages: Usages, s: Loop, ws: seq<Wakeup>)
    requires s.core.Valid() && !s.handshaken && Run(usages, s, ws).running
    requires forall n | 0 <= n < |ws| :: !AsksForBoot(ws[n])
    ensures AllProcessed(usages, s, ws) == [] && !Run(usages, s, ws).handshaken
    decreases |ws|
  {
    if ws != [] {
      var next := Iterate(usages, s, ws[0]);
      if !next.running {
        StoppedStays(usages, next, ws[1..]);
      }
      PassHandshakes(usages, s, ws[0]);
      UnaskedProcessesNothing(usages, next, ws[1..]);
    }
  }

  lemma {:induction false} RunAppend(usages: Usages, s: Loop, a: seq<Wakeup>, b: seq<Wakeup>)
    requires s.core.Valid()
    ensures Run(usages, s, a + b) == Run(usages, Run(usages, s, a), b)
    ensures AllProcessed(usages, s, a + b) == AllProcessed(usages, s, a) + AllProcessed(usages, Run(usages, s, a), b)
    decreases |a|
  {
    if a == [] {
      assert a + b == b;
    } else {
      assert (a + b)[0] == a[0] && (a + b)[1..] == a[1..] + b;
      RunAppend(usages, Iterate(usages, s, a[0]), a[1..], b);
      var next := Iterate(usages, s, a[0]);
      assert Processed(s, a[0]) + (AllProcessed(usages, next, a[1..]) + AllProcessed(usages, Run(usages, next, a[1..]), b))
          == Processed(s, a[0]) + AllProcessed(usages, next, a[1..]) + AllProcessed(usages, Run(usages, next, a[1..]), b);
    }
  }

  lemma {:induction false} RunningBefore(usages: Usages, s: Loop, a: seq<Wakeup>, b: seq<Wakeup>)
    requires s.core.Valid() && Run(usages, s, a + b).running
    ensures Run(usages, s, a).running
  {
    RunAppend(usages, s, a, b);
    if !Run(usages, s, a).running {
      StoppedStays(usages, Run(usages, s, a), b);
    }
  }

  // From the first pass in which the host asks for the boot protocol on, exactly the key events of
  // the later passes are processed.
  lemma {:induction false} ProcessedFromHandshake(usages: Usages, s: Loop, before: seq<Wakeup>, ask: Wakeup,
          after: seq<Wakeup>)
    requires s.core.Valid() && !s.handshaken && AsksForBoot(ask)
    requires forall n | 0 <= n < |before| :: !AsksForBoot(before[n])
    requires Run(usages, s, before + ([ask] + after)).running
    ensures AllProcessed(usages, s, before + ([ask] + after)) == KeyEvents(after)
  {
    RunAppend(usages, s, before, [ask] + after);
    RunningBefore(usages, s, before, [ask] + after);
    UnaskedProcessesNothing(usages, s, before);
    var mid := Run(usages, s, before);
    assert ([ask] + after)[0] == ask && ([ask] + after)[1..] == after;
    var next := Iterate(usages, mid, ask);
    if !next.running {
      StoppedStays(usages, next, after);
    }
    PassHandshakes(usages, mid, ask);
    HandshakenProcesses(usages, next, after);
  }

  // ---------- when the program and when a connection ends ----------

  // A pass that loses the connection: poll fails, the quit event comes, or the host is gone.
  predicate Loses(w: Wakeup) {
    || w.PollFailed?
    || (w.pipe.PipeEvent? && w.pipe.event.kind == 0xff && w.pipe.event.value == 0xffff)
    || w.control.SocketFailed? || w.interrupt.SocketFailed?
  }

  // A pass ends the program exactly if the pipe cannot be read or a report that is due cannot be
  // written.
  lemma {:induction false} PassEnds(usages: Usages, s: Loop, w: Wakeup, wire: set<ModKey>)
    requires s.core.Valid() && s.core.bits == BitsOf(wire) && s.running
    ensures Iterate(usages, s, w).running <==>
              w.PollFailed? || !(w.pipe.PipeFailed?
                || (w.pipe.PipeEvent? && w.pipe.event.kind == 1 && s.handshaken && !w.writeOk
                    && (Classify(w.pipe.event.code).Ordinary? || WireStep(wire, w.pipe.event) != wire)))
  {
    if w.Ready? && w.pipe.PipeEvent? && w.pipe.event.kind == EV_KEY {
      ReactFollowsWire(usages, s.core, w.pipe.event, wire);
    }
  }

  // Otherwise it goes on to a new connection exactly if it loses the old one.
  lemma {:induction false} PassLoses(usages: Usages, s: Loop, w: Wakeup)
    requires s.core.Valid() && Iterate(usages, s, w).running
    ensures Iterate(usages, s, w).sessions == s.sessions + if Loses(w) then 1 else 0
  {
  }

  function Losses(ws: seq<Wakeup>): nat {
    if ws == [] then 0 else (if Loses(ws[0]) then 1 else 0) + Losses(ws[1..])
  }

  // On every run that is still going the device has waited for one connection more than it lost.
  lemma {:induction false} SessionsCount(usages: Usages, s: Loop, ws: seq<Wakeup>)
    requires s.core.Valid() && Run(usages, s, ws).running
    ensures Run(usages, s, ws).sessions == s.sessions + Losses(ws)
    decreases |ws|
  {
    if ws != [] {
      var next := Iterate(usages, s, ws[0]);
      if !next.running {
        StoppedStays(usages, next, ws[1..]);
      }
      PassLoses(usages, s, ws[0]);
      SessionsCount(usages, next, ws[1..]);
    }
  }

  // ---------- what a report is ----------

  // An input report of a boot keyboard: the two header bytes, the modifier byte, the reserved byte,
  // and one usage of the table in the first of six slots.
  predicate IsBootReport(usages: Usages, bytes: seq<Byte>) {
    && |bytes| == 10 && bytes[0] == 0xa1 && bytes[1] == 0x01 && bytes[3] == 0
    && (bytes[4] == 0 || bytes[4] in usages)
    && bytes[5] == bytes[6] == bytes[7] == bytes[8] == bytes[9] == 0
  }

  predicate AllBootReports(usages: Usages, out: seq<Packet>) {
    forall p | p in out && p.Input? :: IsBootReport(usages, p.bytes)
  }

  // Every report on every run is one.
  lemma {:induction false} ReportsAreBoot(usages: Usages, s: Loop, ws: seq<Wakeup>)
    requires s.core.Valid() && AllBootReports(usages, s.out)
    ensures AllBootReports(usages, Run(usages, s, ws).out)
    decreases |ws|
  {
    if ws != [] {
      PassReportsBoot(usages, s, ws[0]);
      ReportsAreBoot(usages, Iterate(usages, s, ws[0]), ws[1..]);
    }
  }

  lemma {:induction false} ReactionIsBoot(usages: Usages, c: Core, e: Event)
    requires c.Valid()
    ensures var r := React(usages, c, e).report; r.Some? ==> IsBootReport(usages, r.value)
  {
  }

  lemma {:induction false} PipeReportsBoot(usages: Usages, s: Loop, read: PipeRead, writeOk: bool)
    requires s.core.Valid() && AllBootReports(usages, s.out)
    ensures AllBootReports(usages, OnPipe(usages, s, read, writeOk).loop.out)
  {
    if read.PipeEvent? {
      ReactionIsBoot(usages, s.core, read.event);
    }
  }

  lemma {:induction false} PassReportsBoot(usages: Usages, s: Loop, w: Wakeup)
    requires s.core.Valid() && AllBootReports(usages, s.out)
    ensures AllBootReports(usages, Iterate(usages, s, w).out)
  {
    if w.Ready? {
      PipeReportsBoot(usages, s, w.pipe, w.writeOk);
    }
  }

  // What the report of a key event says: an ordinary key that goes down brings its usage from the
  // table, anything else none; the modifier byte has the bits of section 8.3, from left Ctrl's 1 to
  // right Alt's 64.
  lemma {:induction false} ReportSays(usages: Usages, c: Core, e: Event, wire: set<ModKey>)
    requires c.Valid() && c.bits == BitsOf(wire) && e.kind == 1
    ensures var r := React(usages, c, e).report;
            r.Some? ==>
              && |r.value| == 10 && r.value[2] == ByteOfKeys(WireStep(wire, e))
              && r.value[4] == if Classify(e.code).Ordinary? && e.value > 0 && 0 <= e.code < 256 then usages[e.code] else 0
  {
    ReactFollowsWire(usages, c, e, wire);
    ByteOfKeysIs(WireStep(wire, e));
  }

  function ByteOfKeys(keys: set<ModKey>): int {
    (if LeftCtrl in keys then 1 else 0) + (if LeftShift in keys then 2 else 0) + (if LeftAlt in keys then 4 else 0)
    + (if RightCtrl in keys then 16 else 0) + (if RightShift in keys then 32 else 0) + (if RightAlt in keys then 64 else 0)
  }

  lemma {:induction false} ByteOfKeysIs(keys: set<ModKey>)
    ensures ModifierByte(BitsOf(keys)) == ByteOfKeys(keys)
  {
    ByteSpelledOut(BitsOf(keys));
  }
}
