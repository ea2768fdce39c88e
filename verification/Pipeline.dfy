// From clicks to typed keys: the calls that a click makes, the events they write to the pipe, the
// reports the device sends for them, and what a boot-protocol host reads out of those reports.
module Pipeline {
  import opened Latches
  import opened BootDevice

  // ---------- the host ----------

  // A key press as the host sees it: a usage that was not in the previous report, together with
  // the modifier byte of the report that brought it.
  datatype Typed = Typed(usage: Byte, modifiers: Byte)

  // The six usage slots of a report (appendix B.1).
  function Slots(report: seq<Byte>): seq<Byte> {
    if |report| == 10 then report[4..] else []
  }

  function Fresh(before: seq<Byte>, now: seq<Byte>): seq<Byte> {
    if now == [] then []
    else (if now[0] != 0 && now[0] !in before then [now[0]] else []) + Fresh(before, now[1..])
  }

  function Tag(keys: seq<Byte>, modifiers: Byte): seq<Typed> {
    seq(|keys|, i requires 0 <= i < |keys| => Typed(keys[i], modifiers))
  }

  function Decode(held: seq<Byte>, reports: seq<seq<Byte>>): seq<Typed>
    decreases |reports|
  {
    if reports == [] then []
    else (if |reports[0]| == 10 then Tag(Fresh(held, Slots(reports[0])), reports[0][2]) else [])
         + Decode(Slots(reports[0]), reports[1..])
  }

  function LastSlots(held: seq<Byte>, reports: seq<seq<Byte>>): seq<Byte> {
    if reports == [] then held else Slots(reports[|reports| - 1])
  }

  lemma {:induction false} DecodeAppend(held: seq<Byte>, a: seq<seq<Byte>>, b: seq<seq<Byte>>)
    ensures Decode(held, a + b) == Decode(held, a) + Decode(LastSlots(held, a), b)
    ensures LastSlots(held, a + b) == LastSlots(LastSlots(held, a), b)
    decreases |a|
  {
    if a == [] {
      assert a + b == b;
    } else {
      assert (a + b)[0] == a[0] && (a + b)[1..] == a[1..] + b;
      DecodeAppend(Slots(a[0]), a[1..], b);
      var here := if |a[0]| == 10 then Tag(Fresh(held, Slots(a[0])), a[0][2]) else [];
      assert here + (Decode(Slots(a[0]), a[1..]) + Decode(LastSlots(held, a), b))
          == here + Decode(Slots(a[0]), a[1..]) + Decode(LastSlots(held, a), b);
    }
  }

  predicate Idle(held: seq<Byte>) {
    forall k | k in held :: k == 0
  }

  lemma {:induction false} DecodeOne(held: seq<Byte>, modifiers: Byte, usage: Byte)
    requires Idle(held)
    ensures Decode(held, [Report(modifiers, usage)]) == if usage != 0 then [Typed(usage, modifiers)] else []
    ensures usage == 0 ==> Idle(LastSlots(held, [Report(modifiers, usage)]))
  {
    var r := Report(modifiers, usage);
    var slots := Slots(r);
    assert slots == [usage, 0, 0, 0, 0, 0];
    FreshZeros(held, slots[1..]);
    var rs: seq<seq<Byte>> := [r];
    assert |rs[1..]| == 0;
    assert Decode(held, rs) == Tag(Fresh(held, slots), modifiers) + [];
  }

  lemma {:induction false} FreshZeros(held: seq<Byte>, now: seq<Byte>)
    requires forall i | 0 <= i < |now| :: now[i] == 0
    ensures Fresh(held, now) == []
    decreases |now|
  {
    if now != [] {
      FreshZeros(held, now[1..]);
    }
  }

  // Reports that name no key are read as nothing, and leave no key held.
  predicate Quiet(report: seq<Byte>) {
    |report| == 10 && report == Report(report[2], 0)
  }

  predicate AllQuiet(reports: seq<seq<Byte>>) {
    forall i | 0 <= i < |reports| :: Quiet(reports[i])
  }

  lemma {:induction false} DecodeQuiet(held: seq<Byte>, reports: seq<seq<Byte>>)
    requires AllQuiet(reports)
    ensures Decode(held, reports) == []
    ensures reports != [] || Idle(held) ==> Idle(LastSlots(held, reports))
    decreases |reports|
  {
    if reports != [] {
      var slots := Slots(reports[0]);
      assert slots == [0, 0, 0, 0, 0, 0];
      FreshZeros(held, slots);
      DecodeQuiet(slots, reports[1..]);
    }
  }

  // ---------- the device on quiet events ----------

  predicate QuietEvent(e: Event) {
    e.kind == EV_KEY && (Classify(e.code).Modifier? || e.value <= 0)
  }

  lemma {:induction false} FeedQuiet(usages: Usages, c: Core, events: seq<Event>)
    requires c.Valid() && forall i | 0 <= i < |events| :: QuietEvent(events[i])
    ensures AllQuiet(Feed(usages, c, events).reports)
    decreases |events|
  {
    if events != [] {
      assert QuietEvent(events[0]);
      var r := React(usages, c, events[0]);
      assert r.report.Some? ==> r.report.value == Report(r.core.modifiers, 0) && r.report.value[2] == r.core.modifiers;
      FeedQuiet(usages, r.core, events[1..]);
    }
  }

  // ---------- clicks ----------

  // The scancodes for which there is a usage table entry.
  type Scancode = c: int | 0 <= c < 256

  // A click of the key with this scancode, without repeats: a press call and a release call.
  function ClickCalls(scancode: Scancode): seq<KeyCall> {
    [KeyCall(scancode, 1), KeyCall(scancode, 0)]
  }

  function CallsOf(clicks: seq<Scancode>): seq<KeyCall> {
    if clicks == [] then [] else ClickCalls(clicks[0]) + CallsOf(clicks[1..])
  }

  // The latches after a click.
  function LatchesAfter(how: Clearing, latches: set<ModKey>, scancode: Scancode): set<ModKey> {
    match Classify(scancode)
    case Modifier(m) =>
      if m !in LEFT then {} else if m in latches then Clear(how, latches, m) else latches + {m}
    case Ordinary => {}
  }

  // What the clicks mean: each ordinary key that has a usage, with the modifiers latched at it.
  function Meaning(usages: Usages, how: Clearing, latches: set<ModKey>, clicks: seq<Scancode>): seq<Typed>
    decreases |clicks|
  {
    if clicks == [] then []
    else Typing(usages, latches, clicks[0])
         + Meaning(usages, how, LatchesAfter(how, latches, clicks[0]), clicks[1..])
  }

  // What one click types while these modifier keys are in force.
  function Typing(usages: Usages, modifiers: set<ModKey>, scancode: Scancode): seq<Typed> {
    if Classify(scancode).Ordinary? && UsageOf(usages, scancode) != 0
    then [Typed(UsageOf(usages, scancode), ModifierByte(BitsOf(modifiers)))] else []
  }

  // The wire after a click.
  function WireAfter(how: Clearing, latches: set<ModKey>, wire: set<ModKey>, scancode: Scancode): set<ModKey> {
    match Classify(scancode)
    case Modifier(m) =>
      if m !in LEFT then wire - Freed(how, latches) else if m in latches then wire - {m} else wire + {m}
    case Ordinary => wire - Freed(how, latches)
  }

  // What the host sees: each click is typed under the modifiers that are down on the wire, which
  // need not be those that are latched.
  function HostSees(usages: Usages, how: Clearing, latches: set<ModKey>, wire: set<ModKey>,
          clicks: seq<Scancode>): seq<Typed>
    decreases |clicks|
  {
    if clicks == [] then []
    else Typing(usages, wire, clicks[0])
         + HostSees(usages, how, LatchesAfter(how, latches, clicks[0]), WireAfter(how, latches, wire, clicks[0]), clicks[1..])
  }

  // ---------- one click ----------

  lemma {:induction false} CallTwo(how: Clearing, latches: set<ModKey>, a: KeyCall, b: KeyCall)
    ensures var o1 := Call(how, latches, a.scancode, a.updown);
            var o2 := Call(how, o1.latches, b.scancode, b.updown);
            CallAll(how, latches, [a, b]) == Outcome(o2.latches, o1.events + o2.events)
  {
    var o1 := Call(how, latches, a.scancode, a.updown);
    var o2 := Call(how, o1.latches, b.scancode, b.updown);
    assert [a, b][1..] == [b] && [b][1..] == [];
    assert CallAll(how, o2.latches, []).events == [];
    assert o2.events + [] == o2.events;
    assert CallAll(how, o1.latches, [b]) == Outcome(o2.latches, o2.events + []);
  }

  // A press, and then nothing that names a key.
  predicate PressThenQuiet(scancode: Scancode, events: seq<Event>) {
    && events != [] && events[0] == Send(scancode, 1)
    && forall i | 1 <= i < |events| :: QuietEvent(events[i])
  }

  lemma {:induction false} DropIsQuiet(how: Clearing, o: Outcome, m: ModKey, scancode: Scancode)
    requires PressThenQuiet(scancode, o.events)
    ensures PressThenQuiet(scancode, Drop(how, o, m).events)
  {
    CodesRoundTrip(m);
  }

  // A click on an ordinary or right-modifier key: its press, releases of left keys, its release.
  lemma {:induction false} OtherClick(how: Clearing, latches: set<ModKey>, scancode: Scancode)
    requires forall m | m in LEFT :: Classify(scancode) != Modifier(m)
    requires latches <= LEFT
    ensures var o := CallAll(how, latches, ClickCalls(scancode));
            && o.latches == {}
            && o.events == Call(how, latches, scancode, 1).events + [Send(scancode, 0)]
            && PressThenQuiet(scancode, o.events)
  {
    CallTwo(how, latches, KeyCall(scancode, 1), KeyCall(scancode, 0));
    OthersOnWire(how, latches, KeyCall(scancode, 1), {});
    var o0 := Outcome(latches, [Send(scancode, 1)]);
    var o1 := Drop(how, o0, LeftAlt);
    var o2 := Drop(how, o1, LeftCtrl);
    DropIsQuiet(how, o0, LeftAlt, scancode);
    DropIsQuiet(how, o1, LeftCtrl, scancode);
    DropIsQuiet(how, o2, LeftShift, scancode);
  }

  lemma {:induction false} OtherClickOnWire(how: Clearing, latches: set<ModKey>, wire: set<ModKey>,
          scancode: Scancode)
    requires latches <= LEFT && wire <= LEFT
    requires forall m | m in LEFT :: Classify(scancode) != Modifier(m)
    ensures Wire(wire, CallAll(how, latches, ClickCalls(scancode)).events) == wire - Freed(how, latches)
  {
    var press, up := KeyCall(scancode, 1), Send(scancode, 0);
    OtherClick(how, latches, scancode);
    OthersOnWire(how, latches, press, wire);
    var events := Call(how, latches, scancode, 1).events;
    WireAppend(wire, events, [up]);
    WireOne(Wire(wire, events), up);
  }

  // A click on a left modifier key: one event, which toggles it.
  lemma {:induction false} LeftClick(how: Clearing, latches: set<ModKey>, wire: set<ModKey>, scancode: Scancode,
          m: ModKey)
    requires Classify(scancode) == Modifier(m) && m in LEFT
    ensures var o := CallAll(how, latches, ClickCalls(scancode));
            && o.latches == LatchesAfter(how, latches, scancode)
            && Wire(wire, o.events) == WireAfter(how, latches, wire, scancode)
            && forall i | 0 <= i < |o.events| :: QuietEvent(o.events[i])
  {
    var press, release := KeyCall(scancode, 1), KeyCall(scancode, 0);
    CallTwo(how, latches, press, release);
    LeftOnWire(how, latches, press, wire, m);
    var o1 := Call(how, latches, scancode, 1);
    assert Call(how, o1.latches, scancode, 0).events == [];
    assert o1.events + [] == o1.events;
  }

  // What a click does to the latches and to the wire.
  lemma {:induction false} ClickEffect(how: Clearing, latches: set<ModKey>, wire: set<ModKey>, scancode: Scancode)
    requires latches <= wire <= LEFT
    ensures var o := CallAll(how, latches, ClickCalls(scancode));
            && o.latches == LatchesAfter(how, latches, scancode)
            && Wire(wire, o.events) == WireAfter(how, latches, wire, scancode)
            && LatchesAfter(how, latches, scancode) <= WireAfter(how, latches, wire, scancode) <= LEFT
  {
    if Classify(scancode).Modifier? && Classify(scancode).key in LEFT {
      LeftClick(how, latches, wire, scancode, Classify(scancode).key);
    } else {
      OtherClick(how, latches, scancode);
      OtherClickOnWire(how, latches, wire, scancode);
    }
  }

  // The host, holding no key, reads this out of the reports that the events cause, and then holds
  // no key again.
  predicate Reads(usages: Usages, c: Core, held: seq<Byte>, events: seq<Event>, typed: seq<Typed>)
    requires c.Valid()
  {
    var reports := Feed(usages, c, events).reports;
    Decode(held, reports) == typed && Idle(LastSlots(held, reports))
  }

  lemma {:induction false} QuietReads(usages: Usages, c: Core, held: seq<Byte>, events: seq<Event>)
    requires c.Valid() && Idle(held) && forall i | 0 <= i < |events| :: QuietEvent(events[i])
    ensures Reads(usages, c, held, events, [])
  {
    FeedQuiet(usages, c, events);
    DecodeQuiet(held, Feed(usages, c, events).reports);
  }

  lemma {:induction false} ReadsJoin(usages: Usages, c: Core, held: seq<Byte>, a: seq<Event>, b: seq<Event>,
          ta: seq<Typed>, tb: seq<Typed>)
    requires c.Valid() && Reads(usages, c, held, a, ta)
    requires Reads(usages, Feed(usages, c, a).core, LastSlots(held, Feed(usages, c, a).reports), b, tb)
    ensures Reads(usages, c, held, a + b, ta + tb)
  {
    FeedAppend(usages, c, a, b);
    var f := Feed(usages, c, a);
    DecodeAppend(held, f.reports, Feed(usages, f.core, b).reports);
  }

  // The reports of an ordinary click: one with the key, some without, and a last one without.
  lemma {:induction false} OrdinaryReads(usages: Usages, wire: set<ModKey>, scancode: Scancode, c: Core,
          held: seq<Byte>, events: seq<Event>)
    requires Classify(scancode).Ordinary?
    requires c.Valid() && c.bits == BitsOf(wire) && Idle(held)
    requires PressThenQuiet(scancode, events) && |events| >= 2 && events[|events| - 1] == Send(scancode, 0)
    ensures Reads(usages, c, held, events, Typing(usages, wire, scancode))
  {
    var rest := events[1..];
    assert events == [events[0]] + rest;
    FeedAppend(usages, c, [events[0]], rest);
    FeedOne(usages, c, events[0]);
    var first := Report(c.modifiers, UsageOf(usages, scancode));
    var f := Feed(usages, c, [events[0]]);
    assert f.reports == [first];
    FeedQuiet(usages, f.core, rest);
    LastReports(usages, f.core, rest);
    DecodeAppend(held, [first], Feed(usages, f.core, rest).reports);
    DecodeOne(held, c.modifiers, UsageOf(usages, scancode));
    DecodeQuiet(LastSlots(held, [first]), Feed(usages, f.core, rest).reports);
    assert Typing(usages, wire, scancode) + [] == Typing(usages, wire, scancode);
  }

  lemma {:induction false} LastReports(usages: Usages, c: Core, events: seq<Event>)
    requires c.Valid() && events != [] && Classify(events[|events| - 1].code).Ordinary?
    ensures Feed(usages, c, events).reports != []
  {
    var last := events[|events| - 1];
    assert events == events[..|events| - 1] + [last];
    FeedAppend(usages, c, events[..|events| - 1], [last]);
    FeedOne(usages, Feed(usages, c, events[..|events| - 1]).core, last);
  }

  lemma {:induction false} OtherClickReads(usages: Usages, how: Clearing, latches: set<ModKey>, wire: set<ModKey>,
          scancode: Scancode, c: Core, held: seq<Byte>)
    requires latches <= LEFT && forall m | m in LEFT :: Classify(scancode) != Modifier(m)
    requires c.Valid() && c.bits == BitsOf(wire) && Idle(held)
    ensures Reads(usages, c, held, CallAll(how, latches, ClickCalls(scancode)).events, Typing(usages, wire, scancode))
  {
    var events := CallAll(how, latches, ClickCalls(scancode)).events;
    OtherClick(how, latches, scancode);
    if Classify(scancode).Modifier? {
      QuietReads(usages, c, held, events);
    } else {
      OrdinaryReads(usages, wire, scancode, c, held, events);
    }
  }

  // One click, end to end: the host reads exactly what the key types under the modifiers that are
  // down on the wire, and holds no key afterwards.
  lemma {:induction false} ClickReads(usages: Usages, how: Clearing, latches: set<ModKey>, wire: set<ModKey>,
                   scancode: Scancode, c: Core, held: seq<Byte>)
    requires latches <= wire <= LEFT
    requires c.Valid() && c.bits == BitsOf(wire) && Idle(held)
    ensures Reads(usages, c, held, CallAll(how, latches, ClickCalls(scancode)).events, Typing(usages, wire, scancode))
  {
    if m :| m in LEFT && Classify(scancode) == Modifier(m) {
      LeftClick(how, latches, wire, scancode, m);
      QuietReads(usages, c, held, CallAll(how, latches, ClickCalls(scancode)).events);
    } else {
      OtherClickReads(usages, how, latches, wire, scancode, c, held);
    }
  }

  lemma {:induction false} ClickKeys(how: Clearing, latches: set<ModKey>, scancode: Scancode)
    ensures forall e | e in CallAll(how, latches, ClickCalls(scancode)).events :: e.kind == EV_KEY
  {
    CallTwo(how, latches, KeyCall(scancode, 1), KeyCall(scancode, 0));
    CallKeys(how, latches, KeyCall(scancode, 1));
    CallKeys(how, Call(how, latches, scancode, 1).latches, KeyCall(scancode, 0));
  }

  lemma {:induction false} CallKeys(how: Clearing, latches: set<ModKey>, c: KeyCall)
    requires c.Valid()
    ensures forall e | e in Call(how, latches, c.scancode, c.updown).events :: e.kind == EV_KEY
  {
    var o := Outcome(latches, [Send(c.scancode, c.updown)]);
    DropKeys(how, o, LeftAlt);
    DropKeys(how, Drop(how, o, LeftAlt), LeftCtrl);
    DropKeys(how, Drop(how, Drop(how, o, LeftAlt), LeftCtrl), LeftShift);
  }

  lemma {:induction false} DropKeys(how: Clearing, o: Outcome, m: ModKey)
    requires forall e | e in o.events :: e.kind == EV_KEY
    ensures forall e | e in Drop(how, o, m).events :: e.kind == EV_KEY
  {
  }

  // ---------- whole runs of clicks ----------

  // For every run of clicks and either way of clearing, from any state in which the latched
  // modifiers are down on the wire: the host reads exactly the clicks, each under the modifiers
  // that were down on the wire at it.
  lemma {:induction false} RunReads(usages: Usages, how: Clearing, latches: set<ModKey>, wire: set<ModKey>,
                                    clicks: seq<Scancode>, c: Core, held: seq<Byte>)
    requires latches <= wire <= LEFT
    requires c.Valid() && c.bits == BitsOf(wire) && Idle(held)
    ensures Reads(usages, c, held, CallAll(how, latches, CallsOf(clicks)).events, HostSees(usages, how, latches, wire, clicks))
    decreases |clicks|
  {
    if clicks != [] {
      var now, later := ClickCalls(clicks[0]), CallsOf(clicks[1..]);
      ClickEffect(how, latches, wire, clicks[0]);
      ClickReads(usages, how, latches, wire, clicks[0], c, held);
      ClickKeys(how, latches, clicks[0]);
      var o := CallAll(how, latches, now);
      var f := Feed(usages, c, o.events);
      FeedCounts(usages, c, o.events, wire);
      var wire' := WireAfter(how, latches, wire, clicks[0]);
      RunReads(usages, how, o.latches, wire', clicks[1..], f.core, LastSlots(held, f.reports));
      CallAllAppend(how, latches, now, later);
      ReadsJoin(usages, c, held, o.events, CallAll(how, o.latches, later).events,
                Typing(usages, wire, clicks[0]), HostSees(usages, how, o.latches, wire', clicks[1..]));
    }
  }

  lemma {:induction false} CallAllAppend(how: Clearing, latches: set<ModKey>, a: seq<KeyCall>, b: seq<KeyCall>)
    ensures var o := CallAll(how, latches, a);
            CallAll(how, latches, a + b)
            == Outcome(CallAll(how, o.latches, b).latches, o.events + CallAll(how, o.latches, b).events)
    decreases |a|
  {
    if a == [] {
      assert a + b == b;
    } else {
      var first := Call(how, latches, a[0].scancode, a[0].updown);
      assert (a + b)[0] == a[0] && (a + b)[1..] == a[1..] + b;
      CallAllAppend(how, first.latches, a[1..], b);
      var o, rest := CallAll(how, first.latches, a[1..]), CallAll(how, first.latches, a[1..] + b);
      var last := CallAll(how, o.latches, b);
      assert CallAll(how, latches, a + b) == Outcome(rest.latches, first.events + rest.events);
      assert first.events + (o.events + last.events) == first.events + o.events + last.events;
    }
  }

  // A click clears a latch while another one is set.
  predicate ClickClearsAmongSeveral(latches: set<ModKey>, scancode: Scancode) {
    ClearsAmongSeveral(latches, KeyCall(scancode, 1))
  }

  // The run, cleared as written, never does that: a caller can tell from the clicks alone.
  predicate NeverClearsAmongSeveral(latches: set<ModKey>, clicks: seq<Scancode>)
    decreases |clicks|
  {
    clicks == [] ||
    (!ClickClearsAmongSeveral(latches, clicks[0])
     && NeverClearsAmongSeveral(LatchesAfter(AsWritten, latches, clicks[0]), clicks[1..]))
  }

  // After one click from agreement, latches and wire still agree unless the clearing is as written
  // and clears among several.
  lemma {:induction false} ClickAgreement(how: Clearing, latches: set<ModKey>, scancode: Scancode)
    requires latches <= LEFT
    ensures LatchesAfter(how, latches, scancode) == WireAfter(how, latches, latches, scancode)
            <==> how == OwnBit || !ClickClearsAmongSeveral(latches, scancode)
    ensures LatchesAfter(how, latches, scancode) <= WireAfter(how, latches, latches, scancode) <= LEFT
  {
    var call := KeyCall(scancode, 1);
    if Classify(scancode).Modifier? && Classify(scancode).key in LEFT {
      var m := Classify(scancode).key;
      LeftAgreement(how, latches, latches, call, m);
      assert (latches - {m}) * LEFT == latches - {m} && (latches + {m}) * LEFT == latches + {m};
    } else {
      OthersAgreement(how, latches, latches, call);
      var own := WireStep(latches, Send(scancode, 1));
      assert (own - Freed(how, latches)) * LEFT == latches - Freed(how, latches);
    }
  }

  // Without a clear among several, what the host sees is what the clicks mean.
  lemma {:induction false} SeenIsMeant(usages: Usages, how: Clearing, latches: set<ModKey>, clicks: seq<Scancode>)
    requires latches <= LEFT
    requires how == OwnBit || NeverClearsAmongSeveral(latches, clicks)
    ensures HostSees(usages, how, latches, latches, clicks) == Meaning(usages, how, latches, clicks)
    decreases |clicks|
  {
    if clicks != [] {
      ClickAgreement(how, latches, clicks[0]);
      SeenIsMeant(usages, how, LatchesAfter(how, latches, clicks[0]), clicks[1..]);
    }
  }

  // What the host reads out of the reports that a run of clicks causes, from a device at rest.
  function HostReads(usages: Usages, how: Clearing, clicks: seq<Scancode>): seq<Typed> {
    Decode([], Feed(usages, START.core, CallAll(how, {}, CallsOf(clicks)).events).reports)
  }

  lemma {:induction false} HostReadsSees(usages: Usages, how: Clearing, clicks: seq<Scancode>)
    ensures HostReads(usages, how, clicks) == HostSees(usages, how, {}, {}, clicks)
  {
    assert BitsOf({}) == START.core.bits;
    RunReads(usages, how, {}, {}, clicks, START.core, []);
  }

  // Meaning is preserved, with clears that remove their own bit: for every run of clicks the host
  // reads exactly the ordinary keys clicked, each with the modifiers latched at it.
  lemma {:induction false} MeaningPreservedOwnBit(usages: Usages, clicks: seq<Scancode>)
    ensures HostReads(usages, OwnBit, clicks) == Meaning(usages, OwnBit, {}, clicks)
  {
    HostReadsSees(usages, OwnBit, clicks);
    SeenIsMeant(usages, OwnBit, {}, clicks);
  }

  // Meaning is preserved, with the clears as written, exactly on the runs that never clear a latch
  // while another is set: those are the runs at every point of which a key would be typed right.
  lemma {:induction false} MeaningPreservedAsWritten(usages: Usages, clicks: seq<Scancode>, key: Scancode)
    requires Classify(key).Ordinary? && UsageOf(usages, key) != 0
    ensures NeverClearsAmongSeveral({}, clicks) <==>
              forall n | 0 <= n <= |clicks| ::
                HostReads(usages, AsWritten, clicks[..n] + [key]) == Meaning(usages, AsWritten, {}, clicks[..n] + [key])
  {
    if NeverClearsAmongSeveral({}, clicks) {
      forall n | 0 <= n <= |clicks|
        ensures HostReads(usages, AsWritten, clicks[..n] + [key]) == Meaning(usages, AsWritten, {}, clicks[..n] + [key])
      {
        HostReadsSees(usages, AsWritten, clicks[..n] + [key]);
        SafePrefixTypes(usages, {}, clicks, n, key);
      }
    } else {
      var n := UnsafePrefix(usages, {}, clicks, key);
      HostReadsSees(usages, AsWritten, clicks[..n] + [key]);
    }
  }

  lemma {:induction false} SafePrefixTypes(usages: Usages, latches: set<ModKey>, clicks: seq<Scancode>, n: nat,
          key: Scancode)
    requires latches <= LEFT && n <= |clicks|
    requires NeverClearsAmongSeveral(latches, clicks)
    ensures HostSees(usages, AsWritten, latches, latches, clicks[..n] + [key])
            == Meaning(usages, AsWritten, latches, clicks[..n] + [key])
    decreases n
  {
    var run := clicks[..n] + [key];
    if n == 0 {
      assert run == [key] && run[1..] == [];
    } else {
      assert run[0] == clicks[0] && run[1..] == clicks[1..][..n - 1] + [key];
      ClickAgreement(AsWritten, latches, clicks[0]);
      SafePrefixTypes(usages, LatchesAfter(AsWritten, latches, clicks[0]), clicks[1..], n - 1, key);
    }
  }

  // After the first clear among several the next key comes out under a modifier that is stuck.
  lemma {:induction false} UnsafePrefix(usages: Usages, latches: set<ModKey>, clicks: seq<Scancode>,
          key: Scancode) returns (n: nat)
    requires latches <= LEFT && !NeverClearsAmongSeveral(latches, clicks)
    requires Classify(key).Ordinary? && UsageOf(usages, key) != 0
    ensures n <= |clicks|
    ensures HostSees(usages, AsWritten, latches, latches, clicks[..n] + [key])
            != Meaning(usages, AsWritten, latches, clicks[..n] + [key])
    decreases |clicks|
  {
    ClickAgreement(AsWritten, latches, clicks[0]);
    var after := LatchesAfter(AsWritten, latches, clicks[0]);
    var head := Typing(usages, latches, clicks[0]);
    if ClickClearsAmongSeveral(latches, clicks[0]) {
      n := 1;
      var run := clicks[..1] + [key];
      assert run[0] == clicks[0] && run[1..] == [key];
      var wire := WireAfter(AsWritten, latches, latches, clicks[0]);
      OneKey(usages, after, wire, key);
      ByteIsInjective(after, wire);
      SameHead(head, Typing(usages, wire, key), Typing(usages, after, key));
    } else {
      var rest := UnsafePrefix(usages, after, clicks[1..], key);
      n := rest + 1;
      var run := clicks[..n] + [key];
      assert run[0] == clicks[0] && run[1..] == clicks[1..][..rest] + [key];
      SameHead(head, HostSees(usages, AsWritten, after, after, run[1..]), Meaning(usages, AsWritten, after, run[1..]));
    }
  }

  lemma {:induction false} SameHead(head: seq<Typed>, a: seq<Typed>, b: seq<Typed>)
    requires a != b
    ensures head + a != head + b
  {
    assert (head + a)[|head|..] == a && (head + b)[|head|..] == b;
  }

  lemma {:induction false} OneKey(usages: Usages, latches: set<ModKey>, wire: set<ModKey>, key: Scancode)
    ensures HostSees(usages, AsWritten, latches, wire, [key]) == Typing(usages, wire, key)
    ensures Meaning(usages, AsWritten, latches, [key]) == Typing(usages, latches, key)
  {
    var keys: seq<Scancode> := [key];
    assert keys[1..] == [];
    assert HostSees(usages, AsWritten, latches, wire, keys) == Typing(usages, wire, key) + [];
    assert Meaning(usages, AsWritten, latches, keys) == Typing(usages, latches, key) + [];
  }

  // A failing run: Alt, Ctrl, a key, a key. The clear after the first key releases Alt
  // only, and the second key comes out under a Ctrl that no latch shows.
  lemma {:induction false} StuckModifier(usages: Usages, key: Scancode)
    requires Classify(key).Ordinary? && UsageOf(usages, key) != 0
    ensures var clicks := [KEY_LEFTALT, KEY_LEFTCTRL, key, key];
            && HostReads(usages, AsWritten, clicks) == [Typed(UsageOf(usages, key), 5), Typed(UsageOf(usages, key), 1)]
            && Meaning(usages, AsWritten, {}, clicks) == [Typed(UsageOf(usages, key), 5), Typed(UsageOf(usages, key), 0)]
  {
    var clicks: seq<Scancode> := [KEY_LEFTALT, KEY_LEFTCTRL, key, key];
    var both := {LeftAlt, LeftCtrl};
    HostReadsSees(usages, AsWritten, clicks);
    assert clicks[1..] == [KEY_LEFTCTRL, key, key] && clicks[1..][1..] == [key, key];
    assert {} + {LeftAlt} == {LeftAlt} && {LeftAlt} + {LeftCtrl} == both;
    assert HostSees(usages, AsWritten, {}, {}, clicks) == [] + HostSees(usages, AsWritten, {LeftAlt}, {LeftAlt}, clicks[1..]);
    assert HostSees(usages, AsWritten, {LeftAlt}, {LeftAlt}, clicks[1..]) == [] + HostSees(usages, AsWritten, both, both, [key, key]);
    assert Meaning(usages, AsWritten, {}, clicks) == [] + Meaning(usages, AsWritten, {LeftAlt}, clicks[1..]);
    assert Meaning(usages, AsWritten, {LeftAlt}, clicks[1..]) == [] + Meaning(usages, AsWritten, both, [key, key]);
    TwoKeys(usages, key);
  }

  lemma {:induction false} TwoKeys(usages: Usages, key: Scancode)
    requires Classify(key).Ordinary? && UsageOf(usages, key) != 0
    ensures var both := {LeftAlt, LeftCtrl};
            var u := UsageOf(usages, key);
            && HostSees(usages, AsWritten, both, both, [key, key]) == [Typed(u, 5), Typed(u, 1)]
            && Meaning(usages, AsWritten, both, [key, key]) == [Typed(u, 5), Typed(u, 0)]
  {
    var both := {LeftAlt, LeftCtrl};
    var keys: seq<Scancode> := [key, key];
    assert keys[1..] == [key];
    assert both - {LeftAlt} == {LeftCtrl};
    ByteSpelledOut(BitsOf(both));
    ByteSpelledOut(BitsOf({LeftCtrl}));
    ByteSpelledOut(BitsOf({}));
    OneKey(usages, {}, {LeftCtrl}, key);
  }
}
