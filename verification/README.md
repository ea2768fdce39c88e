# HIDSlave, modelled and proved

HIDSlave turns an on-screen keyboard into a Bluetooth keyboard. A patched xkbd reads a keyboard
from a configuration file, lays it out in its window, turns clicks into input events on a pipe, and
a device loop turns those into boot-keyboard reports for a Bluetooth host. Beside it stands
libhidroid, a small Java library of L2CAP sockets.

This project models the parts that carry algorithms and state, and proves what they are for:

- `Keymap`, `KeySequence`, `VirtKeys`: the allocation of keysyms to free places in the X server's
  keyboard table, and the compiler from keysyms to press and release sequences. Its target is the
  rule of the X Window System Protocol, section 5 (Keyboards), by which Shift and Mode_switch select
  the keysym of a key, with Lock off.
- `StickyModifiers`, `Latches`, `AutoRepeat`, `Keypad`: the keyboard side of a click - the
  shift, lock and unlock states, the latched left modifier keys, the repeat timer.
- `BootDevice`, `DeviceRuns`, `Pipeline`, `HeldKeys`, `Gestures`: the device loop with the
  SET_PROTOCOL handshake (section 7.4.6 of the Bluetooth HID Profile 1.0) and the reports of a boot
  keyboard (section 8.3 and appendix B.1 of the USB Device Class Definition for HID 1.11), a host that
  decodes those reports, and the whole way from mouse gestures to what the host reads.
- `Boxes`, `Geometry`, `Layouts`, `LayoutRuns`, `SizedLayouts`, `MinimumSizes`, `NaturalSizes`: widget
  trees, the sizing passes, resizing, switching between layouts, and hit-testing.
- `ConfigText`, `ConfigParser`, `ConfigKeys`, `ConfigRoundTrip`, `ConfigGlobals`, `KeyboardFromText`:
  the configuration parser, and kb_new from text to keyboard.
- `SocketLock`: the lock, try, finally protocol of `L2capSocket` and `NativeSocket`, as interleaved
  steps of any number of threads and as methods.

Where the source works by changing state there is a class or a method with loops, proved equal to a
function of the old state; what the source promises is then proved of that function, over all inputs
and all runs, with the source's constants, bytes and names written out. `dafny verify dfyconfig.toml`
checks everything.

Things that turned out otherwise than the source's comments say:

- The statements that clear one latch are written `&= (!BIT)` and clear all of them, while the
  comment at src/hidcd.c:425 wants the modifiers released. The clear is a parameter (`AsWritten` or
  `OwnBit`), and each theorem says for which of the two it holds. `Pipeline.StuckModifier` is a
  run on which the code as written leaves a key stuck at the host.
- On the Bluetooth path a press and a release both call the state machine and only the release
  stores its result, so a modifier is locked only by an odd number of repeats
  (`StickyModifiers.ClickByRepeats`, `StickyModifiers.NoLockWithoutRepeats`).
- The finally block releases the semaphore even if acquiring it was interrupted
  (`SocketLock.ExclusionExactly`, `SocketLock.InterruptedLockLeaks`), and connect tests descriptors with
  `> 0`, so that a descriptor 0 is never closed (`SocketLock.CallKeepsConsistencyExactly`).
- Only Mode_switch is checked when the modifier table is built. If Shift has no keycode, the
  sequences of shifted columns start with the terminator and type nothing
  (`KeySequence.CompilerCorrect`).
- The Meta, Alt and Shift indices start at the place of Shift and move only if a Mod key carries the
  name. Where none does, sending a shifted keysym in one of these modes presses Shift twice and fails
  (`VirtKeys.UnnamedModesHoldShift`; `VirtKeys.ModesCorrect` has the exact condition).
- By section 5 a keysym without a right neighbour stands for both its cases, so an upper-case keysym
  that is given an empty row is typed in lower case (`KeySequence.UpperCaseTypesLower`).
- The repeat timer is reset only by a tick with no button held, so clicks in quick succession add up
  to a repeat (`Gestures.UnrestedRepeats`), and a repeat with a latch set is a second key press to
  the host (`HeldKeys.HoldReads`).
- The code field of an event has 16 bits, while the latches look at the whole scancode
  (`Latches.PosingKey`).
- A modifier keysym that is given a free place in column 0 closes its row
  (`Keymap.ModifierClosesRow`).

## Model

| member | source | states |
|---|---|---|
| Keymap.PlaceFailsExactly | xkbdbthid-0.1/xkbd-0.8.15_bthid/src/libvirtkeys.c:343-384 | A lookup fails if and only if the keysym is absent and no NoSymbol entry lies in a row whose unshifted keysym is no modifier; a failed lookup changes nothing |
| Keymap.PlaceClaimsFirstFree | xkbdbthid-0.1/xkbd-0.8.15_bthid/src/libvirtkeys.c:353-390 | An insertion takes the first such entry in row-major order and writes no other |
| Keymap.ClaimIsFirst | xkbdbthid-0.1/xkbd-0.8.15_bthid/src/libvirtkeys.c:355-370 | Entry by entry: what an absent keysym claims is an empty entry in a row whose unshifted keysym is no modifier, the row-major first of these, and a lookup fails only if there is none |
| Keymap.ModifierRowsAreKept | xkbdbthid-0.1/xkbd-0.8.15_bthid/src/libvirtkeys.c:355-370 | No run of lookups ever writes into the row of a modifier key |
| Keymap.ModifierKeysAre | xkbdbthid-0.1/xkbd-0.8.15_bthid/src/libvirtkeys.c:360-360 | Shift_L to Hyper_R, the ISO locks, Mode_switch and Num_Lock count as modifiers, and nothing else does |
| Keymap.PlaceKeepsEntries | xkbdbthid-0.1/xkbd-0.8.15_bthid/src/libvirtkeys.c:343-400 | No entry in use is overwritten, and afterwards a search finds the keysym exactly where the lookup said |
| Keymap.PlaceIsStable | xkbdbthid-0.1/xkbd-0.8.15_bthid/src/libvirtkeys.c:343-400 | Looking up any other keysym leaves a resolved keysym where it is |
| Keymap.AllocationIsStable | xkbdbthid-0.1/xkbd-0.8.15_bthid/src/libvirtkeys.c:343-400 | Over any sequence of lookups a resolved keysym resolves to the same row and column forever, and no entry in use changes |
| Keymap.ClaimUsesOneEntry | xkbdbthid-0.1/xkbd-0.8.15_bthid/src/libvirtkeys.c:353-390 | Claiming an entry for a keysym that is no modifier uses up that entry and no other |
| Keymap.CapacityIsExact | xkbdbthid-0.1/xkbd-0.8.15_bthid/src/libvirtkeys.c:353-390 | Distinct absent keysyms that are no modifiers can all be placed if and only if there are at least as many free entries |
| Keymap.ModifierClosesRow | xkbdbthid-0.1/xkbd-0.8.15_bthid/src/libvirtkeys.c:355-366 | The exclusion of modifiers is needed: a modifier that claims column 0 closes the other three entries of its row |
| Keymap.WideningIsTransparent | xkbdbthid-0.1/xkbd-0.8.15_bthid/src/libvirtkeys.c:262-294 | First-match lookup of every keysym but NoSymbol finds the same row and column in the four-column copy as in the two-column table |
| Keymap.WidenAt | xkbdbthid-0.1/xkbd-0.8.15_bthid/src/libvirtkeys.c:269-282 | Every entry of the copy: the first two columns are the table's, the other two empty |
| KeySequence.SequenceStrokes | xkbdbthid-0.1/xkbd-0.8.15_bthid/src/libvirtkeys.c:417-490 | The strokes of each of the four compiled forms, with and without the modifier keys they need |
| KeySequence.TerminatorStops | xkbdbthid-0.1/xkbd-0.8.15_bthid/src/libvirtkeys.c:604-610 | Nothing that stands behind the zero keycode of an entry array is sent |
| KeySequence.SlotResolves | xkbdbthid-0.1/xkbd-0.8.15_bthid/src/libvirtkeys.c:343-370 | With its column selected, the key of a found entry resolves to the keysym that was looked up, except that a keysym without a right neighbour comes out in lower case |
| KeySequence.HeldSequenceCorrect | xkbdbthid-0.1/xkbd-0.8.15_bthid/src/libvirtkeys.c:343-490 | For every table, every keysym found in it and any keys held around the sequence: the replay types exactly the keysym, leaves the same keys down, never releases an up key and never presses a down or missing one, if and only if all keys involved exist and differ and the four entries of the row show the keysym in the column that they select together |
| KeySequence.CompilerCorrect | xkbdbthid-0.1/xkbd-0.8.15_bthid/src/libvirtkeys.c:343-490 | The same without held keys |
| KeySequence.SelectablePlainly | xkbdbthid-0.1/xkbd-0.8.15_bthid/src/libvirtkeys.c:417-490 | Then the condition is that the modifier keys of the column exist and are not the key itself, and that a keysym without a right neighbour is its own lower case |
| KeySequence.PressesHold | xkbdbthid-0.1/xkbd-0.8.15_bthid/src/libvirtkeys.c:592-602 | The down events before a sequence leave exactly their keys held |
| KeySequence.ReleasesFree | xkbdbthid-0.1/xkbd-0.8.15_bthid/src/libvirtkeys.c:614-624 | The up events after a sequence free exactly their keys |
| KeySequence.OwnKeysAreTransparent | xkbdbthid-0.1/xkbd-0.8.15_bthid/src/libvirtkeys.c:578-626 | Keys of their own, held around a sequence, change nothing about what can be typed |
| KeySequence.HeldShift | xkbdbthid-0.1/xkbd-0.8.15_bthid/src/libvirtkeys.c:54-57 | Shift itself held around a sequence makes every shifted column fail, and an unshifted one type its keysym exactly if the shifted column shows it too |
| KeySequence.StillTypes | xkbdbthid-0.1/xkbd-0.8.15_bthid/src/libvirtkeys.c:343-490 | A placed keysym that its sequence types goes on typing itself after every later run of lookups |
| KeySequence.SharedKeyIsFragile | xkbdbthid-0.1/xkbd-0.8.15_bthid/src/libvirtkeys.c:357-370 | With one key for both Shift and Mode_switch it need not: a later claim takes the column away |
| KeySequence.UpperCaseTypesLower | xkbdbthid-0.1/xkbd-0.8.15_bthid/src/libvirtkeys.c:353-390 | An absent upper-case keysym that claims a first column without a right neighbour is typed in lower case |
| KeySequence.LookupThenReplayTypesOnce | xkbdbthid-0.1/xkbd-0.8.15_bthid/src/libvirtkeys.c:311-490 | Lookup, claim if needed, and replay, with or without held modifier keys, from a selectable slot: an application sees the one keysym and no other text |
| VirtKeys.VirtKeys.constructor | xkbdbthid-0.1/xkbd-0.8.15_bthid/src/libvirtkeys.c:54-57 | The Meta, Alt and Shift indices start at 0, the place of Shift |
| VirtKeys.VirtKeys.CreateModifierTable | xkbdbthid-0.1/xkbd-0.8.15_bthid/src/libvirtkeys.c:69-213 | Succeeds exactly on a display whose unshifted Mode_switch key exists; the table then holds the first keycode in use of each modifier, 0 for none, and the three indices are those of LastNamedIs |
| VirtKeys.FirstInUse | xkbdbthid-0.1/xkbd-0.8.15_bthid/src/libvirtkeys.c:122-137 | The keycode of a modifier is the first in use, no later one |
| VirtKeys.NamesAre | xkbdbthid-0.1/xkbd-0.8.15_bthid/src/libvirtkeys.c:153-172 | The keysyms that name Meta, Alt, Shift and Mode_switch |
| VirtKeys.LastNamedIs | xkbdbthid-0.1/xkbd-0.8.15_bthid/src/libvirtkeys.c:151-189 | Each index is the last of Mod1 to Mod5 whose key carries one of its names, and what it was before if there is none |
| VirtKeys.ModesCorrect | xkbdbthid-0.1/xkbd-0.8.15_bthid/src/libvirtkeys.c:578-626 | Control, Meta, Alt and Shift held around a sequence in any combination: exactly the keysym is typed and the same keys stay down, if and only if the keys that the modifier table has at the indices exist, are used once and leave the keysym's column selected |
| VirtKeys.HeldInOrder | xkbdbthid-0.1/xkbd-0.8.15_bthid/src/libvirtkeys.c:592-602 | Control, Meta, Alt and Shift go down in this order, Control as modifier 2 of the table |
| VirtKeys.UnnamedModesHoldShift | xkbdbthid-0.1/xkbd-0.8.15_bthid/src/libvirtkeys.c:54-57 | Where no Mod key carries the names, the shift mode, like the meta and the alt mode, holds the key that shifted columns press: columns 1 and 3 fail, and meta and alt together fail everywhere |
| VirtKeys.VirtKeys.LoadKeySymTable | xkbdbthid-0.1/xkbd-0.8.15_bthid/src/libvirtkeys.c:219-301 | Succeeds exactly for two or four columns; a two-column table is replaced by its widened copy |
| VirtKeys.VirtKeys.WideCopy | xkbdbthid-0.1/xkbd-0.8.15_bthid/src/libvirtkeys.c:269-282 | The copying loops compute the widened table that WideningIsTransparent is about |
| VirtKeys.VirtKeys.Scan | xkbdbthid-0.1/xkbd-0.8.15_bthid/src/libvirtkeys.c:343-370 | The nested search finds the first occurrence and the first free entry |
| VirtKeys.VirtKeys.Assign | xkbdbthid-0.1/xkbd-0.8.15_bthid/src/libvirtkeys.c:343-402 | Search and claim together are the allocation of the Keymap lemmas, on the table and on the server's copy |
| VirtKeys.VirtKeys.LookupKeyCodeSequence | xkbdbthid-0.1/xkbd-0.8.15_bthid/src/libvirtkeys.c:311-535 | On a table of any width: the stored entries are the compiled sequence and its terminator; the rest of the entry array and, on failure, all of it is untouched |
| VirtKeys.VirtKeys.LookupCompiled | xkbdbthid-0.1/xkbd-0.8.15_bthid/src/libvirtkeys.c:311-535 | On a loaded table the stored entries replay as the compiled strokes of the slot, whatever the array held before |
| VirtKeys.VirtKeys.SendKey | xkbdbthid-0.1/xkbd-0.8.15_bthid/src/libvirtkeys.c:628-668 | Appends the strokes of one entry, and nothing without a display |
| VirtKeys.VirtKeys.SendEntries | xkbdbthid-0.1/xkbd-0.8.15_bthid/src/libvirtkeys.c:604-610 | Sends the strokes of the entries up to the first zero keycode, whatever stands behind it |
| VirtKeys.VirtKeys.SendKeySequence | xkbdbthid-0.1/xkbd-0.8.15_bthid/src/libvirtkeys.c:578-626 | Wraps the sequence in the presses and the releases of the chosen modifier keys |
| VirtKeys.VirtKeys.TypeKeysym | xkbdbthid-0.1/xkbd-0.8.15_bthid/src/libvirtkeys.c:311-668 | A lookup followed by a send, in any choice of modes, emits exactly the strokes that ModesCorrect is about |
| StickyModifiers.AlwaysConsistent | xkbdbthid-0.1/xkbd-0.8.15_bthid/src/hidcd.c:338-372 | In every state reachable by any calls the locked modifiers are set and Caps is not among them |
| StickyModifiers.DirectCycle | xkbdbthid-0.1/xkbd-0.8.15_bthid/src/kb.c:882-935 | One call per click cycles a modifier through unset, set and locked with period 3 and touches no other modifier |
| StickyModifiers.HoldsFlipLock | xkbdbthid-0.1/xkbd-0.8.15_bthid/src/hidcd.c:345-353 | Every call on a set modifier flips its lock |
| StickyModifiers.ClickByRepeats | xkbdbthid-0.1/xkbd-0.8.15_bthid/src/hidcd.c:338-372 | Under press, r repeats and release a set modifier is unset for even r and locked for odd r; a locked one the other way round |
| StickyModifiers.OrdinaryClickResets | xkbdbthid-0.1/xkbd-0.8.15_bthid/src/hidcd.c:363-372 | An ordinary click, however long, leaves exactly Caps if it was set and the locked modifiers |
| StickyModifiers.NoLockWithoutRepeats | xkbdbthid-0.1/xkbd-0.8.15_bthid/src/kb.c:800-823 | Without repeats no run of clicks over the Bluetooth path ever locks a modifier |
| StickyModifiers.CapsClickFlips | xkbdbthid-0.1/xkbd-0.8.15_bthid/src/hidcd.c:360-362 | A click on a Caps key, however long, flips Caps and leaves every other flag and all locks alone |
| StickyModifiers.OtherClickKeepsCaps | xkbdbthid-0.1/xkbd-0.8.15_bthid/src/hidcd.c:338-372 | No other click changes Caps |
| Latches.DropOnWire | xkbdbthid-0.1/xkbd-0.8.15_bthid/src/hidcd.c:435-446 | A drop releases on the wire exactly the key whose latch it clears |
| Latches.OthersOnWire | xkbdbthid-0.1/xkbd-0.8.15_bthid/src/hidcd.c:425-447 | Another key, of any scancode, leaves no latch; on the wire it releases all latched keys if clears take their own bit, and only the first one as written. The quit key changes neither |
| Latches.EventsAre | xkbdbthid-0.1/xkbd-0.8.15_bthid/src/hidcd.c:425-447 | Event by event what another key puts into the pipe: itself with 16 bits of its code, then the ups, Alt before Ctrl before Shift, as written only the first; the quit key a quit event alone |
| Latches.ToggleEventsAre | xkbdbthid-0.1/xkbd-0.8.15_bthid/src/hidcd.c:386-424 | A left modifier key puts one event into the pipe when it goes down, a down or an up by its latch |
| Latches.KeycodesAre | xkbdbthid-0.1/xkbd-0.8.15_bthid/src/hidcd.c:238-256 | The six keycodes of the modifier keys |
| Latches.CallLatchVersusWire | xkbdbthid-0.1/xkbd-0.8.15_bthid/src/hidcd.c:386-447 | From agreement one call with any scancode keeps the latches among the left keys down on the wire, and keeps them equal if and only if it does not clear, as written, among several, and its scancode does not become a left key's in the 16-bit code field in a way that no clear makes good |
| Latches.PartsPlainly | xkbdbthid-0.1/xkbd-0.8.15_bthid/src/hidcd.c:386-447 | For scancodes that the code field keeps, the only such calls are those that clear as written among several |
| Latches.CallKeepsLatchesDown | xkbdbthid-0.1/xkbd-0.8.15_bthid/src/hidcd.c:386-447 | Latched keys stay among those whose last piped event was a down, whatever happened before |
| Latches.LatchVersusWire | xkbdbthid-0.1/xkbd-0.8.15_bthid/src/hidcd.c:386-447 | Over whole runs the latches stay among the left keys down on the wire, and are all of them if no call made them part |
| Latches.AgreementExactly | xkbdbthid-0.1/xkbd-0.8.15_bthid/src/hidcd.c:386-447 | For both readings of the clear, latches and wire agree at every point of a run if and only if no call of the run makes them part |
| Latches.PosingKey | xkbdbthid-0.1/xkbd-0.8.15_bthid/src/hidcd.c:60-71 | A failing input for clears of the own bit: scancode 65592 is left Alt on the pipe and not to the latches |
| BootDevice.Device.constructor | xkbdbthid-0.1/xkbd-0.8.15_bthid/src/hidcd.c:166-183 | The loop starts in the state that the run lemmas start from |
| BootDevice.Device.Step | xkbdbthid-0.1/xkbd-0.8.15_bthid/src/hidcd.c:206-330 | One pass of the poll loop is one step of the loop that MirrorOnEveryRun and ReportsCount are about |
| BootDevice.Device.HandleKey | xkbdbthid-0.1/xkbd-0.8.15_bthid/src/hidcd.c:232-293 | A key event has the reaction that ReactFollowsWire describes, and ends the program if its report cannot be written |
| BootDevice.Device.NoteKey | xkbdbthid-0.1/xkbd-0.8.15_bthid/src/hidcd.c:238-267 | The switch sets the bit or moves the counter of exactly the key of the event |
| BootDevice.Device.SendReport | xkbdbthid-0.1/xkbd-0.8.15_bthid/src/hidcd.c:275-291 | The ten bytes written are a boot keyboard report with this modifier byte and usage |
| BootDevice.Device.HandleControl | xkbdbthid-0.1/xkbd-0.8.15_bthid/src/hidcd.c:305-315 | A lone SET_PROTOCOL to boot mode is answered once, and nothing else is |
| BootDevice.Device.HandlePipe | xkbdbthid-0.1/xkbd-0.8.15_bthid/src/hidcd.c:217-294 | What one pass makes of the pipe: the quit event, a failed read, a key before and after the handshake |
| BootDevice.OrIsSum | xkbdbthid-0.1/xkbd-0.8.15_bthid/src/hidcd.c:269-272 | Binary or with a bit above all bits that are set adds it |
| BootDevice.Device.SumModifiers | xkbdbthid-0.1/xkbd-0.8.15_bthid/src/hidcd.c:269-272 | The loop of ors computes the sum of bitmask[i] << i |
| BootDevice.ByteSpelledOut | xkbdbthid-0.1/xkbd-0.8.15_bthid/src/hidcd.c:269-272 | The modifier byte as a sum over its eight bits |
| BootDevice.ByteIsInjective | xkbdbthid-0.1/xkbd-0.8.15_bthid/src/hidcd.c:238-272 | Different sets of held modifier keys give different modifier bytes |
| BootDevice.ReactFollowsWire | xkbdbthid-0.1/xkbd-0.8.15_bthid/src/hidcd.c:234-291 | After an event the bitmask is that of the keys now down; a report is due exactly for ordinary keys and actual modifier changes |
| BootDevice.MirrorOnEveryRun | xkbdbthid-0.1/xkbd-0.8.15_bthid/src/hidcd.c:190-335 | On every run, through any reconnects: byte 2 of the last report is the modifier byte (0 before the first), no report precedes the handshake, and at most one reply is ever sent |
| BootDevice.StartMirrors | xkbdbthid-0.1/xkbd-0.8.15_bthid/src/hidcd.c:176-181 | The initial state has that property |
| BootDevice.FeedCounts | xkbdbthid-0.1/xkbd-0.8.15_bthid/src/hidcd.c:232-293 | Over any event stream the reports number the ordinary key events plus actual modifier changes, and press is downs minus ups |
| BootDevice.LoopFeeds | xkbdbthid-0.1/xkbd-0.8.15_bthid/src/hidcd.c:206-335 | Failed polls, quit events and reconnects leave no trace: the reports sent are those of the stream of processed key events |
| BootDevice.ReportsCount | xkbdbthid-0.1/xkbd-0.8.15_bthid/src/hidcd.c:206-335 | The counts of FeedCounts hold on every run of the loop that is still going |
| DeviceRuns.HandshakenExactly | xkbdbthid-0.1/xkbd-0.8.15_bthid/src/hidcd.c:305-315 | On every run that is still going: the device has shaken hands, and answered, if and only if in some pass the control channel was reached and held exactly the one byte 0x70 |
| DeviceRuns.ProcessedFromHandshake | xkbdbthid-0.1/xkbd-0.8.15_bthid/src/hidcd.c:206-315 | From the first such pass on exactly the key events of the later passes are processed, through any reconnects, and none before |
| DeviceRuns.HandshakenProcesses | xkbdbthid-0.1/xkbd-0.8.15_bthid/src/hidcd.c:232-234 | A device that has shaken hands processes every key event |
| DeviceRuns.PassEnds | xkbdbthid-0.1/xkbd-0.8.15_bthid/src/hidcd.c:217-294 | A pass ends the program if and only if the pipe cannot be read or a report that is due cannot be written |
| DeviceRuns.PassLoses | xkbdbthid-0.1/xkbd-0.8.15_bthid/src/hidcd.c:206-330 | Otherwise it waits for a new connection exactly after a failed poll, the quit event or a closed channel |
| DeviceRuns.SessionsCount | xkbdbthid-0.1/xkbd-0.8.15_bthid/src/hidcd.c:190-335 | Over every run that is still going the connections are one more than those lost |
| DeviceRuns.ReportsAreBoot | xkbdbthid-0.1/xkbd-0.8.15_bthid/src/hidcd.c:275-291 | Every report on every run has the ten bytes of a boot keyboard report: header, reserved byte, and one usage of the table in six slots |
| DeviceRuns.ReportSays | xkbdbthid-0.1/xkbd-0.8.15_bthid/src/hidcd.c:238-291 | Which usage and which modifier bits the report of a key event carries, from left Ctrl's 1 to right Alt's 64 |
| Pipeline.ClickEffect | xkbdbthid-0.1/xkbd-0.8.15_bthid/src/hidcd.c:386-447 | What a click does to the latches and to the wire, for both readings of the clear |
| Pipeline.ClickReads | xkbdbthid-0.1/xkbd-0.8.15_bthid/src/hidcd.c:232-293 | From one click the host decodes exactly the key under the modifiers down on the wire, and holds no key afterwards |
| Pipeline.RunReads | xkbdbthid-0.1/xkbd-0.8.15_bthid/src/hidcd.c:386-447 | The same for every run of clicks from any state in which the latched keys are down |
| Pipeline.MeaningPreservedOwnBit | xkbdbthid-0.1/xkbd-0.8.15_bthid/src/hidcd.c:386-447 | If a clear removes its own bit, the host decodes from every run of clicks exactly the ordinary keys clicked, each with the modifiers latched at it |
| Pipeline.MeaningPreservedAsWritten | xkbdbthid-0.1/xkbd-0.8.15_bthid/src/hidcd.c:386-447 | As written, every prefix of a run types its next key right if and only if the run never clears a latch while another is set |
| Pipeline.UnsafePrefix | xkbdbthid-0.1/xkbd-0.8.15_bthid/src/hidcd.c:435-446 | On any other run there is a point at which the next key comes out under a modifier that is stuck |
| Pipeline.StuckModifier | xkbdbthid-0.1/xkbd-0.8.15_bthid/src/hidcd.c:425-446 | A failing run: Alt, Ctrl, a key, a key; the last key is read with Ctrl although no latch is set |
| AutoRepeat.ClosedForm | xkbdbthid-0.1/xkbd-0.8.15_bthid/src/kb.c:861-880 | From any timer, n ticks fire 0 repeats before the L ticks that are left and 1 + (n - L) / R from then on, for all n; an L below 1 is never reached and an R below 1 gives one repeat |
| Keypad.Keypad.BthidSend | xkbdbthid-0.1/xkbd-0.8.15_bthid/src/hidcd.c:60-71 | Appends one event, a quit event for the code 0xffff |
| Keypad.Keypad.NewState | xkbdbthid-0.1/xkbd-0.8.15_bthid/src/hidcd.c:340-372 | The branches on modifier, lock and Caps are the transition that StickyModifiers analyses |
| Keypad.Keypad.Toggle | xkbdbthid-0.1/xkbd-0.8.15_bthid/src/hidcd.c:386-424 | The three branches for left keys are the call that Latches analyses |
| Keypad.Keypad.Release | xkbdbthid-0.1/xkbd-0.8.15_bthid/src/hidcd.c:435-446 | Each of the three clears is a drop |
| Keypad.Keypad.BthidProcessKeypress | xkbdbthid-0.1/xkbd-0.8.15_bthid/src/hidcd.c:338-450 | One call changes the sticky state, the latches and the pipe together as the run model says |
| Keypad.Keypad.KbSwitchLayout | xkbdbthid-0.1/xkbd-0.8.15_bthid/src/kb.c:828-832 | A release switches to the button's layout if it has one |
| Keypad.Keypad.KbHandleEvents | xkbdbthid-0.1/xkbd-0.8.15_bthid/src/kb.c:779-840 | Press and release events make the calls of the run model, store the new state only when it changed or belongs to the button, and switch the layout |
| Keypad.Keypad.KbDoRepeat | xkbdbthid-0.1/xkbd-0.8.15_bthid/src/kb.c:861-880 | A tick counts, fires and resets as the timer of ClosedForm |
| Gestures.GestureIsHold | xkbdbthid-0.1/xkbd-0.8.15_bthid/src/kb.c:779-880 | Pressing, holding for n ticks and releasing, from any timer that the last release left, is one click with the repeats that the closed form counts |
| Gestures.GesturesArePiped | xkbdbthid-0.1/xkbd-0.8.15_bthid/src/kb.c:779-880 | For every run of gestures, with or without an idle tick between them, the pipe gets exactly the events of those clicks, and the layouts are switched as the buttons say, in order |
| Gestures.GesturesKeepConsistency | xkbdbthid-0.1/xkbd-0.8.15_bthid/src/hidcd.c:338-372 | The sticky state stays consistent through every run of gestures |
| Gestures.CapsParity | xkbdbthid-0.1/xkbd-0.8.15_bthid/src/hidcd.c:338-372 | Caps is on after every run of gestures exactly if it was on before, flipped by the number of clicks on Caps keys |
| Gestures.MissedPress | xkbdbthid-0.1/xkbd-0.8.15_bthid/src/kb.c:785-801 | A press beside all buttons drops the one that is down and sends nothing, nor does the release after it |
| Gestures.PressReplaces | xkbdbthid-0.1/xkbd-0.8.15_bthid/src/kb.c:785-801 | A press while another button is down drops that one without a release, and goes on as a gesture of the new one |
| Gestures.QuitEnds | xkbdbthid-0.1/xkbd-0.8.15_bthid/src/hidcd.c:426-433 | The quit key puts one quit event into the pipe and ends the keyboard, whatever comes after |
| Gestures.RepeatTimes | xkbdbthid-0.1/xkbd-0.8.15_bthid/src/kb.c:861-880 | How often a held button repeats, in terms of the delay, the interval and what the timer has counted since the last idle tick |
| Gestures.ShortGesturesAreClicks | xkbdbthid-0.1/xkbd-0.8.15_bthid/src/xkbd.c:438-468 | The gestures are clicks without repeats if and only if the ticks that add up between idle ticks never reach the repeat |
| Gestures.RestedAreShort | xkbdbthid-0.1/xkbd-0.8.15_bthid/src/xkbd.c:438-468 | With an idle tick before each of them: if and only if each alone is shorter than the delay |
| Gestures.UnrestedRepeats | xkbdbthid-0.1/xkbd-0.8.15_bthid/src/xkbd.c:438-468 | Without idle ticks, two gestures that are each too short to repeat can repeat |
| Gestures.MouseToHost | xkbdbthid-0.1/xkbd-0.8.15_bthid/src/hidcd.c:166-450 | From the mouse to the host, for every run of gestures however long, whatever else happens in the device loop: the host reads each key under the modifiers on the wire, and once more if it repeats with a latch set |
| Gestures.MouseToHostFromStart | xkbdbthid-0.1/xkbd-0.8.15_bthid/src/hidcd.c:166-450 | The same from the start of the device: once the host has asked for the boot protocol, the key events in the pipe reach it, with anything else happening in between |
| Gestures.ShortMouseToHost | xkbdbthid-0.1/xkbd-0.8.15_bthid/src/hidcd.c:166-450 | For gestures too short to repeat the host reads exactly the keys pressed with the modifiers latched at each, if clears take their own bit or never happen among several |
| Gestures.HeldKeyReports | xkbdbthid-0.1/xkbd-0.8.15_bthid/src/hidcd.c:257-291 | Holding a key for n ticks with no latch, from any timer, makes exactly two reports plus one per repeat of the closed form |
| HeldKeys.HoldEffect | xkbdbthid-0.1/xkbd-0.8.15_bthid/src/hidcd.c:386-447 | What a press, any number of repeats and a release do to the latches and to the wire; the latched keys stay down there |
| HeldKeys.EvenToggles | xkbdbthid-0.1/xkbd-0.8.15_bthid/src/hidcd.c:386-424 | With clears of the own bit a left modifier key that is held toggles by the parity of its calls |
| HeldKeys.HoldReports | xkbdbthid-0.1/xkbd-0.8.15_bthid/src/hidcd.c:257-291 | A held ordinary key with no latch makes two reports and one per repeat |
| HeldKeys.TypingIs | xkbdbthid-0.1/xkbd-0.8.15_bthid/src/hidcd.c:257-272 | What a press types in numbers: the table's usage for an ordinary key, nothing for a modifier key, under the byte of the keys in force |
| HeldKeys.PressAndDrops | xkbdbthid-0.1/xkbd-0.8.15_bthid/src/hidcd.c:386-447 | After the press the host still holds the key if and only if no latch was set, because the reports of the drops do not name it |
| HeldKeys.HoldReads | xkbdbthid-0.1/xkbd-0.8.15_bthid/src/hidcd.c:232-293 | From a held key, for both readings of the clear, the host decodes the key under the modifiers on the wire and, if it repeats with a latch set, the key once more under those that the clears left there |
| HeldKeys.HoldsRead | xkbdbthid-0.1/xkbd-0.8.15_bthid/src/hidcd.c:386-447 | The same for every run of held keys from any state in which the latched keys are down |
| HeldKeys.HoldsAreClicks | xkbdbthid-0.1/xkbd-0.8.15_bthid/src/hidcd.c:386-447 | Without repeats that is what RunReads says of clicks |
| SocketLock.StepConserves | libhidroid/src/net/hidroid/l2cap/L2capSocket.java:54-79 | Every step of every thread keeps: permits plus threads inside equals 1 plus releases after an interrupted lock |
| SocketLock.PermitsAreConserved | libhidroid/src/net/hidroid/l2cap/L2capSocket.java:54-79 | The same in every interleaving |
| SocketLock.ExclusionExactly | libhidroid/src/net/hidroid/l2cap/L2capSocket.java:74-78 | Two waiting threads can both be let in if and only if some interrupted lock has been released |
| SocketLock.UninterruptedExclusion | libhidroid/src/net/hidroid/l2cap/NativeSocket.java:9-23 | On every run without an interrupted lock at most one thread is inside at any time |
| SocketLock.StepSound | libhidroid/src/net/hidroid/l2cap/L2capSocket.java:54-79 | Every ordinary step keeps the fields right for the point at which a thread is |
| SocketLock.FreeMeansConsistent | libhidroid/src/net/hidroid/l2cap/L2capSocket.java:54-79 | On uninterrupted runs, across every failure point of connect and close: whenever the lock is free the object owns at most the stored descriptor, and the device is set exactly when the port is not -1 |
| SocketLock.LeftAlone | libhidroid/src/net/hidroid/l2cap/L2capSocket.java:56-78 | A thread left alone inside gets through to the finally block from every statement and every answer, and gives its permit back |
| SocketLock.ConnectLeaves | libhidroid/src/net/hidroid/l2cap/L2capSocket.java:56-73 | What an undisturbed connect leaves after a success and after each of its four failures |
| SocketLock.CloseLeaves | libhidroid/src/net/hidroid/l2cap/L2capSocket.java:164-173 | And an undisturbed close |
| SocketLock.ZeroStaysOpen | libhidroid/src/net/hidroid/l2cap/L2capSocket.java:59-64 | A descriptor 0 is never closed by a later connect |
| SocketLock.CallKeepsConsistencyExactly | libhidroid/src/net/hidroid/l2cap/L2capSocket.java:59-73 | An undisturbed call keeps the fields consistent if and only if it is not handed descriptor 0 and does not store port -1 |
| SocketLock.ExtraPermitLeaks | libhidroid/src/net/hidroid/l2cap/L2capSocket.java:56-78 | With a permit too many, two overlapping connects leave a descriptor open that no field remembers |
| SocketLock.InterruptedLockLeaks | libhidroid/src/net/hidroid/l2cap/L2capSocket.java:54-79 | From the start, one interrupted lock of any call is enough for a run that does so |
| SocketLock.NativeSocket.Lock | libhidroid/src/net/hidroid/l2cap/NativeSocket.java:9-11 | Takes a permit, or throws without taking one |
| SocketLock.NativeSocket.Release | libhidroid/src/net/hidroid/l2cap/NativeSocket.java:21-23 | Gives a permit, whether or not one was taken |
| SocketLock.L2capSocket.ConnectLocked | libhidroid/src/net/hidroid/l2cap/L2capSocket.java:59-73 | The statements of connect leave the fields that the interleaved model computes; on success the new descriptor is stored and an old positive one is closed |
| SocketLock.L2capSocket.Connect | libhidroid/src/net/hidroid/l2cap/L2capSocket.java:54-79 | The whole call: it throws exactly if it is interrupted or one of the native calls fails; an interrupted lock adds a permit and changes no field |
| SocketLock.L2capSocket.Close | libhidroid/src/net/hidroid/l2cap/L2capSocket.java:164-177 | The whole call: it throws exactly if it is interrupted or the descriptor cannot be closed; an interrupted lock adds a permit and changes no field |
| Boxes.Box.constructor | xkbdbthid-0.1/xkbd-0.8.15_bthid/src/box.c:25-35 | A new box is a well-formed empty list |
| Boxes.Box.AddButton | xkbdbthid-0.1/xkbd-0.8.15_bthid/src/box.c:37-63 | Appends exactly one new node at the tail of the list from root_kid, keeps it acyclic with tail_kid last, sets the parent, and leaves every chain of parents as it was |
| Boxes.Box.NewRow | xkbdbthid-0.1/xkbd-0.8.15_bthid/src/kb.c:275-298 | A new row hangs below its layout, and every chain of parents from before is still one |
| Boxes.Box.NewKey | xkbdbthid-0.1/xkbd-0.8.15_bthid/src/kb.c:299-305 | So does a new key below its row |
| Boxes.BuildLayout | xkbdbthid-0.1/xkbd-0.8.15_bthid/src/kb.c:275-305 | In the tree that the tags build, the walk from every key ends at its layout |
| Boxes.Box.AddBox | xkbdbthid-0.1/xkbd-0.8.15_bthid/src/box.c:65-89 | Appends a box in the same way; every chain of parents from before, through the box or not, is one again with the box's new ancestors, if the box is not added below itself, and if it is, no walk from it ends |
| Boxes.Box.ListContents | xkbdbthid-0.1/xkbd-0.8.15_bthid/src/box.c:91-102 | Following the links visits exactly the children, in order, and ends |
| Boxes.Button.GetAbsX | xkbdbthid-0.1/xkbd-0.8.15_bthid/src/button.c:483-495 | Where a chain of parents exists, as BuildLayout and AddBox provide it, the walk ends and adds up every offset on the way |
| Boxes.Button.GetAbsY | xkbdbthid-0.1/xkbd-0.8.15_bthid/src/button.c:497-508 | The same for the vertical offsets |
| Boxes.AbsoluteOfKey | xkbdbthid-0.1/xkbd-0.8.15_bthid/src/kb.c:1057-1060 | For a button in a row of a layout the walks give the place that hit-testing compares with |
| Boxes.ChainIsUnique | xkbdbthid-0.1/xkbd-0.8.15_bthid/src/button.c:483-508 | The result of the walks depends on the tree only |
| Geometry.SumBounds | xkbdbthid-0.1/xkbd-0.8.15_bthid/src/kb.c:679-689 | Truncated shares add up to at most their part and fall short by less than one pixel each |
| Geometry.WidthConservation | xkbdbthid-0.1/xkbd-0.8.15_bthid/src/kb.c:671-703 | In a row of n keys of natural width W the shares sum to cx with W - n < cx <= W; after the last-key correction the widths sum to exactly W - 1 and every key starts where the one before it ends |
| Geometry.RowsFit | xkbdbthid-0.1/xkbd-0.8.15_bthid/src/kb.c:663-706 | If the stored minimum height covers the rows' minimum heights, stacked rows never exceed the window |
| Geometry.FitsExactly | xkbdbthid-0.1/xkbd-0.8.15_bthid/src/kb.c:663-706 | The rows fit windows of every height if and only if their minimum heights add up to at most the stored one |
| Geometry.KeysInWindow | xkbdbthid-0.1/xkbd-0.8.15_bthid/src/kb.c:654-711 | Every key lies inside the window |
| Geometry.KeysDisjoint | xkbdbthid-0.1/xkbd-0.8.15_bthid/src/kb.c:654-711 | Different keys do not overlap |
| Geometry.AtMostOneKey | xkbdbthid-0.1/xkbd-0.8.15_bthid/src/kb.c:1057-1063 | A point strictly inside one key is not on or inside another |
| Layouts.Keyboard.PlaceKey | xkbdbthid-0.1/xkbd-0.8.15_bthid/src/kb.c:675-697 | The places, sizes and paddings of one key |
| Layouts.Keyboard.SizeKeys | xkbdbthid-0.1/xkbd-0.8.15_bthid/src/kb.c:671-703 | The loop over a row with its last-key correction computes the row of WidthConservation |
| Layouts.Keyboard.SizeRows | xkbdbthid-0.1/xkbd-0.8.15_bthid/src/kb.c:654-711 | The loop over the rows stacks them at the sums of their bands |
| Layouts.Keyboard.KbSize | xkbdbthid-0.1/xkbd-0.8.15_bthid/src/kb.c:616-713 | Sizes the current layout and no other |
| Layouts.Keyboard.Resize | xkbdbthid-0.1/xkbd-0.8.15_bthid/src/libXkbd.c:25-33 | A resize is one operation of the runs of LayoutRuns |
| Layouts.Keyboard.Repaint | xkbdbthid-0.1/xkbd-0.8.15_bthid/src/libXkbd.c:41-47 | So is a repaint |
| Layouts.Keyboard.SwitchLayout | xkbdbthid-0.1/xkbd-0.8.15_bthid/src/kb.c:715-733 | So is a switch, which hands size and stored minimum on |
| Layouts.LastTakesRest | xkbdbthid-0.1/xkbd-0.8.15_bthid/src/kb.c:701-703 | Correcting the last key alone turns the shared row into one that ends a pixel before the window |
| LayoutRuns.SizingIsIdempotent | xkbdbthid-0.1/xkbd-0.8.15_bthid/src/kb.c:616-713 | Sizing a sized layout changes no field |
| LayoutRuns.DoKeepsInvariant | xkbdbthid-0.1/xkbd-0.8.15_bthid/src/kb.c:616-733 | Every resize, repaint and switch keeps: the current layout's stored minimum height covers the rows of every layout, although a switch copies it; and leaves the current layout sized |
| LayoutRuns.RunKeeps | xkbdbthid-0.1/xkbd-0.8.15_bthid/src/kb.c:616-733 | Over whole runs the stored minimum height and everything that is not computed stay what they were |
| LayoutRuns.GeometryOverRuns | xkbdbthid-0.1/xkbd-0.8.15_bthid/src/kb.c:616-733 | After any run of resizes, repaints and switches all keys of the current layout lie in the window, no two overlap, and stacked rows stay within its height |
| LayoutRuns.SwitchingBackRestores | xkbdbthid-0.1/xkbd-0.8.15_bthid/src/kb.c:715-733 | Switching through any layouts and back brings back every field of the layout at the start |
| LayoutRuns.FoundIsExact | xkbdbthid-0.1/xkbd-0.8.15_bthid/src/kb.c:1029-1074 | In a sized layout the search result is the key if and only if the point is strictly inside its rectangle; for a point on the edge of one it is none |
| LayoutRuns.HitTestOverRuns | xkbdbthid-0.1/xkbd-0.8.15_bthid/src/kb.c:616-733 | So it is after every run of resizes, repaints and switches |
| LayoutRuns.KbFindButton | xkbdbthid-0.1/xkbd-0.8.15_bthid/src/kb.c:1029-1074 | The nested search never returns a key that the point is not strictly inside and, on a sized layout, inverts it exactly |
| SizedLayouts.RowsArePlaced | xkbdbthid-0.1/xkbd-0.8.15_bthid/src/kb.c:663-706 | Every row of a sized layout starts where the one above it ends, at the left, and is as wide as the window |
| SizedLayouts.RowHeight | xkbdbthid-0.1/xkbd-0.8.15_bthid/src/kb.c:666-668 | Its height is its minimum height times the window's by the stored minimum, without the fraction |
| SizedLayouts.HeightConservation | xkbdbthid-0.1/xkbd-0.8.15_bthid/src/kb.c:654-711 | The heights of n rows that need the whole stored minimum add up to more than H - n and at most H; rows that need less fill that part of the window but for less than a pixel each |
| SizedLayouts.KeysArePlaced | xkbdbthid-0.1/xkbd-0.8.15_bthid/src/kb.c:675-703 | Every key starts where the one before it ends, is as high as its row, less one in the last row, and is filled up by its paddings; the last key of a row ends one pixel before the window |
| SizedLayouts.KeyWidth | xkbdbthid-0.1/xkbd-0.8.15_bthid/src/kb.c:679-689 | Every other key has its share of the width, without the fraction |
| SizedLayouts.WidthsFill | xkbdbthid-0.1/xkbd-0.8.15_bthid/src/kb.c:675-703 | The widths of every row's keys add up to the window less one pixel |
| SizedLayouts.OperationSizes | xkbdbthid-0.1/xkbd-0.8.15_bthid/src/libXkbd.c:25-47 | The size that a resize, a repaint and a switch size to, with the stored minimum in place of 0, and which layout they touch |
| SizedLayouts.PlacedAfterRuns | xkbdbthid-0.1/xkbd-0.8.15_bthid/src/kb.c:616-733 | After every run of resizes, repaints and switches the rows and keys of the current layout are placed in this way, and its rows fill the window |
| MinimumSizes.FirstPass | xkbdbthid-0.1/xkbd-0.8.15_bthid/src/kb.c:511-543 | The two maxima over the keys of the first layout |
| MinimumSizes.SecondPassRow | xkbdbthid-0.1/xkbd-0.8.15_bthid/src/kb.c:561-593 | The row's minimum width is the sum of its keys' widths and its minimum height that of its tallest key |
| MinimumSizes.SecondPassPane | xkbdbthid-0.1/xkbd-0.8.15_bthid/src/kb.c:549-604 | The layout's minimum height adds its rows' up, and its minimum width is the largest of all rows so far |
| MinimumSizes.KbNewSizes | xkbdbthid-0.1/xkbd-0.8.15_bthid/src/kb.c:504-609 | Both passes leave the sizes that NaturalSizes writes out |
| MinimumSizes.KbNewEstablishes | xkbdbthid-0.1/xkbd-0.8.15_bthid/src/kb.c:504-609 | What kb_new leaves satisfies the invariant of all runs, if and only if every row has a key with a width of its own or that of a wide one-character key, and there is a row |
| NaturalSizes.KeySizes | xkbdbthid-0.1/xkbd-0.8.15_bthid/src/kb.c:561-579 | Every key is a multiple of the widest one-character key, as wide as that, or as wide as it was, and all are two pixels higher than the tallest of the first layout |
| NaturalSizes.TextKeySizes | xkbdbthid-0.1/xkbd-0.8.15_bthid/src/kb.c:518-579 | The same for the keys as they were read: those whose labels have one character each, without an image and without a width, share one |
| NaturalSizes.TextMaxima | xkbdbthid-0.1/xkbd-0.8.15_bthid/src/kb.c:518-543 | No such key of the first layout is wider than the width they share, and none without a width is higher than the height |
| NaturalSizes.RowMinima | xkbdbthid-0.1/xkbd-0.8.15_bthid/src/kb.c:581-593 | A row's minimum width is that of its keys with their borders, its minimum height that of the highest of them |
| NaturalSizes.NoneIsWider | xkbdbthid-0.1/xkbd-0.8.15_bthid/src/kb.c:588-604 | A layout's minimum width covers its rows and those of the layouts before it |
| NaturalSizes.WidestIsOne | xkbdbthid-0.1/xkbd-0.8.15_bthid/src/kb.c:588-604 | And is that of one of them, or 0 |
| NaturalSizes.HeightMinima | xkbdbthid-0.1/xkbd-0.8.15_bthid/src/kb.c:590-602 | A layout's minimum height is the sum of its rows'; the first one's is the largest of these sums |
| ConfigText.WordFound | xkbdbthid-0.1/xkbd-0.8.15_bthid/src/kb.c:315-315 | A scan finds again a word that is followed by white space |
| ConfigText.AtoiReadsBack | xkbdbthid-0.1/xkbd-0.8.15_bthid/src/button.c:160-163 | Every written number is read back |
| ConfigText.AtoiStops | xkbdbthid-0.1/xkbd-0.8.15_bthid/src/button.c:160-163 | What follows the digits is not read, a plus sign is, and a word without a number is 0 |
| ConfigParser.Reader.OpenTag | xkbdbthid-0.1/xkbd-0.8.15_bthid/src/kb.c:255-311 | The branches on the tag name make the step of the parser model, including the kludge for a missing layout |
| ConfigParser.Reader.ReadLine | xkbdbthid-0.1/xkbd-0.8.15_bthid/src/kb.c:224-499 | One pass of the loop is one step of the parser, fault by fault |
| ConfigParser.Reader.ReadFile | xkbdbthid-0.1/xkbd-0.8.15_bthid/src/kb.c:221-504 | The loop computes the parse that RoundTrip is about |
| ConfigKeys.AttributesAreRebuilt | xkbdbthid-0.1/xkbd-0.8.15_bthid/src/kb.c:433-491 | The canonical settings of a key give back every one of its attributes |
| ConfigKeys.ModifierNames | xkbdbthid-0.1/xkbd-0.8.15_bthid/src/button.c:171-192 | The beginnings of keysym names that make a key a modifier key |
| ConfigRoundTrip.KeyIsRead | xkbdbthid-0.1/xkbd-0.8.15_bthid/src/kb.c:299-491 | A printed key goes to the end of the row opened last with all its settings, any settings in any order, or ends the program at a bad Caps setting |
| ConfigRoundTrip.RowIsRead | xkbdbthid-0.1/xkbd-0.8.15_bthid/src/kb.c:275-298 | A printed row of keys becomes one new row of the layout opened last, although one flat context is all the parser keeps |
| ConfigRoundTrip.RoundTrip | xkbdbthid-0.1/xkbd-0.8.15_bthid/src/kb.c:223-504 | Parsing the canonical print of a tree of layouts, rows and keys gives exactly that tree, if and only if it has 1 to 3 layouts and no setting that ends the program |
| ConfigRoundTrip.AttributesRoundTrip | xkbdbthid-0.1/xkbd-0.8.15_bthid/src/kb.c:223-504 | The same for keys given by attributes: every attribute of every key comes back |
| ConfigRoundTrip.IgnoredLinesSayNothing | xkbdbthid-0.1/xkbd-0.8.15_bthid/src/kb.c:230-231 | Files that differ only in comments and blank lines, anywhere, parse alike |
| ConfigRoundTrip.IndentationSaysNothing | xkbdbthid-0.1/xkbd-0.8.15_bthid/src/kb.c:227-228 | Leading blanks never matter |
| ConfigRoundTrip.LayoutTagIsOptional | xkbdbthid-0.1/xkbd-0.8.15_bthid/src/kb.c:275-298 | A file whose first row comes before any layout parses as if a layout were opened at its start; without a row only the tagged file gives a keyboard |
| ConfigGlobals.GlobalSectionIsRead | xkbdbthid-0.1/xkbd-0.8.15_bthid/src/kb.c:318-420 | The settings of a global section in any order and number: each of theme, slide margin, delay and interval is the one set last under its own name, other settings say nothing, and the layouts are left alone |
| ConfigGlobals.GlobalsRoundTrip | xkbdbthid-0.1/xkbd-0.8.15_bthid/src/kb.c:223-504 | Parsing the canonical print of a global section and a tree gives back exactly these globals and that tree, if and only if the tree has 1 to 3 layouts and no setting that ends the program |
| ConfigGlobals.WholeRoundTrip | xkbdbthid-0.1/xkbd-0.8.15_bthid/src/kb.c:223-504 | The same for keys given by attributes |
| ConfigGlobals.DefaultsStay | xkbdbthid-0.1/xkbd-0.8.15_bthid/src/kb.c:205-208 | Without a global section the theme is rounded, the margin 0, the delay 10 and the interval 5 |
| ConfigGlobals.StraySettingsSayNothing | xkbdbthid-0.1/xkbd-0.8.15_bthid/src/kb.c:319-321 | Settings outside of keys and of the global section say nothing |
| ConfigGlobals.CommentsSayNothing | xkbdbthid-0.1/xkbd-0.8.15_bthid/src/kb.c:227-231 | Nor does a line that, after blanks, is empty or starts with a # |
| ConfigGlobals.LineWithOneWord | xkbdbthid-0.1/xkbd-0.8.15_bthid/src/kb.c:315-315 | A setting without a value ends the program |
| ConfigGlobals.TagWithoutName | xkbdbthid-0.1/xkbd-0.8.15_bthid/src/kb.c:253-311 | So does a tag without a name |
| ConfigGlobals.CapslockIsYesOrNo | xkbdbthid-0.1/xkbd-0.8.15_bthid/src/kb.c:433-491 | And any word but yes and no for obey_capslock |
| KeyboardFromText.KbNew | xkbdbthid-0.1/xkbd-0.8.15_bthid/src/kb.c:88-614 | Text to keyboard: parse, minimum sizes and, for configurations without empty rows or negative sizes, a state from which all runs keep the geometry, if and only if every row has a key that gets some width |

## Left out

- Float rounding: `(int)((float)a / b * c)` in kb_size is the exact quotient `a * c / b` truncated toward zero.
- Machine integers: widths, counters, the timer and `press` are unbounded; the 16-bit code field of an event is taken modulo 65536.
- C bit fields: sticky states, latches and buttons' modifiers are sets of flags, with one flag a button; or-ing a flag in adds it to the set.
- `bthid_state` is not initialised in kb_new; it starts with no latch here.
- `button_new` leaves the scancode unset; it is an optional value until the configuration sets it.
- The X server's answers (keycodes, modifier map, keysym names, text widths, font height, image sizes) are parameters, as are the usage table and the answers of poll, read, write and the native socket calls.
- XTest calls in sendKey are commented out in the source; the model records the strokes they stand for.
- Keysyms that count as modifiers follow the ranges of X's `IsModifierKey`; Xutil.h is not part of this model.
- X drawing, fonts, colours, pixmaps, failures to load them, process exit after a configuration error, argument parsing, `kb_set_slide`, the choice of keysym in `kb_send_keypress`, and the label buffer of lookupKeyCodeSequence.
- Line and word buffers of the configuration parser (255 and 128 characters): lines and words have any length, and a file is a sequence of lines.
- `img` is read as in builds with XPM.
- The state of Lock, and what the server makes of keysyms of the key pad under Num Lock.
- VirtKeys.ModesCorrect: does not model several keys for one modifier, of which the source too keeps the first.
- BootDevice.Device.Step: does not model, after the handshake, the down of an ordinary key with a code of 256 or more, which the source looks up beyond its 256-entry usage table.
- Keypad.Keypad.KbSwitchLayout: records the layout switched to; what the switch does to the layouts is the Switch operation of LayoutRuns.
- Gestures.GesturesArePiped: does not cover presses beside all buttons, a second press before the release, or the quit key; these are MissedPress, PressReplaces and QuitEnds.
- Keypad.Keypad.BthidProcessKeypress: does not model the end of the process at the quit key beyond stopping the keyboard, because the device side never sees it: it compares the event's value, not its code, with 0xffff.
- Layouts.Keyboard.KbSize: does not model rows without keys, or rows of minimum width 0 and a layout of rows with minimum height 0, which make the source dereference null or divide by zero; nor aliasing, because children are the sequences that Boxes proves the linked lists to be and vbox is an index.
- LayoutRuns.GeometryOverRuns: does not cover negative widths or sizes in a configuration.
- KeyboardFromText.KbNew: does not model the two places where vbox and the window's size are preset while parsing; they are the place given as a parameter.
- ConfigRoundTrip.RoundTrip: does not cover values with white space, which the source's scan cannot read.
- SocketLock.L2capSocket.Connect: does not model the two stream fields, the remote address or the timeout; the option setter and the native calls succeed or fail as given.
- SocketLock.FreeMeansConsistent: does not cover descriptor 0, interrupted locks, or a requested port of -1, each of which breaks it (CallKeepsConsistencyExactly, ExclusionExactly).
- The BlueZ, L2CAP and SDP calls, the JNI glue, the Android activity, the SDP record and the keycode tables.
