# Hermit Retro input drivers, modelled in Dafny

This project models how the Fuse ZX Spectrum emulator's Hermit Retro peripheral drivers turn raw input into emulator input events. The input is GPIO pin levels, a serial frame, an I2C register byte, or SDL joystick events. The drivers modelled are:

- **Debounce timer** (`gpio_common.c`). A process-wide millisecond timestamp `lastEventTime`. Every poll first asks `debounceEvent` whether less than an interval has passed since that timestamp, using unsigned 64-bit subtraction. `updateLastEventTime` overwrites it. Module `GpioCommon`, class `DebounceTimer`.
- **Event dispatch.** In the membrane, GPIO joystick, controller and menu-key paths, every press refreshes the timestamp just before it is handed to `input_event`, and a release never touches it. There are exceptions elsewhere. The SDL joystick dispatches presses without touching the timestamp. In the Lyra decoder, only the top-left menu button dispatches, and it refreshes the timestamp first; the other buttons, VOLUME_DOWN included, neither dispatch nor refresh. Every Lyra poll that gets past the debounce refreshes the timestamp at its end, whether or not anything was pressed. The sink is a class `EventQueue` with a ghost log of `Dispatch(event, timestamp in force)`. The function `Dispatched` states what a batch of events leaves in that log, and `StampAfter` states where the timestamp ends up. Module `EventTranslator`.
- **Membrane keyboard** (`gpio_membrane.c`). An 8 x 5 matrix with a `keysPressed` table.
  - Shift and symbol shift are checked first, each sending a press or a release on every poll.
  - A row-major sweep then presses every LOW cell and releases a HIGH cell only if the table had it pressed.
  - Module `GpioMembrane`, class `MembraneKeyboard` over an `array2<bool>`.
- **GPIO joystick** (`gpio_joystick.c`). Six lines with the same press/release convention, held in the 19-slot `joystickPressed` table. Module `GpioJoystick`.
- **Hermit Retro controller** (`hermitretro_controller.c`). One MCP23008 register byte becomes one joystick press per set bit, lowest bit first. Module `HermitController`.
- **Menu button** (`hermitretro_zxzero.c`, duplicated in `hermitretro_i2c_common.c`). A LOW pin sends one key press: Escape while a menu is showing, F1 otherwise. Modules `HermitZxZero` and `HermitI2c`.
- **Lyra handheld** (`hermitretro_lyra.c`, layout in `hermitretro_lyra.h`).
  - A five-byte frame: four bytes each tagged with their position in the top two bits, then a checksum.
  - The frame is decoded by a priority chain that presses and releases slots of `buttonsPressed` and moves a clamped `volumeLevel`.
  - Module `LyraFrame` holds the layout, the checksum, the decision `FrameActions` and an encoder with its round trip.
  - Module `Lyra` holds the class `LyraController`.
- **SDL joystick** (`ui/sdl/sdljoystick.c`).
  - Buttons become fire buttons.
  - Axes become direction presses and releases, with a flutter filter against the last value of each axis.
  - Hat bits become direction releases and presses.
  - Module `SdlJoystick`; the last axis values live in class `AxisMemory`.

The drivers that change state in place are modelled as classes with `modifies` clauses:

- The timer.
- The membrane, joystick and Lyra tables.
- The SDL axis memory.

Each poll's postcondition ties the new table, the sink's log and the timestamp to pure functions of the old state and the samples. The properties promised by the code are lemmas about those functions.

The following are parameters of the model:

- Pin levels, the register byte, the serial frame and its byte count.
- The UI widget level.
- The clock, as milliseconds.

## Model

| member | source | states |
|---|---|---|
| Input.MenuKey | peripherals/hermitretro/hermitretro_zxzero.c:142-148 | the menu key is Escape exactly when `ui_widget_level > -1` and F1 exactly otherwise |
| GpioCommon.Elapsed | peripherals/hermitretro/gpio_common.c:113-116 | `t - lastEventTime` in unsigned 64-bit arithmetic: the plain difference when the clock moved forward, 2^64 minus the gap when it went backwards |
| GpioCommon.Discards | peripherals/hermitretro/gpio_common.c:104-121 | on a forward clock, discard exactly when fewer than `interval` ms have passed since the timestamp; on a backward clock, exactly when 2^64 minus the gap is below `interval`; interval 0 never discards |
| GpioCommon.Millis | peripherals/hermitretro/gpio_common.c:94-96 | the gettimeofday reading in ms: `sec*1000 + usec/1000` when that fits in 64 bits, and then, for a valid `usec`, the seconds are the ms value divided by 1000 and the ms within the second are its remainder |
| GpioCommon.ScaledInterval | peripherals/hermitretro/gpio_membrane.c:224-228 | the interval is unchanged outside a menu, and multiplied by the factor inside one, when the product fits in 64 bits |
| GpioCommon.DebounceTimer.constructor | peripherals/hermitretro/gpio_common.c:52 | the timestamp starts at 0 |
| GpioCommon.DebounceTimer.Init | peripherals/hermitretro/gpio_common.c:58-68 | `gpio_common_init` sets the timestamp to the current time |
| GpioCommon.DebounceTimer.UpdateLastEventTime | peripherals/hermitretro/gpio_common.c:91-97 | the timestamp becomes the current millisecond reading |
| GpioCommon.DebounceTimer.DebounceEvent | peripherals/hermitretro/gpio_common.c:104-121 | reads the timestamp and changes nothing; on a forward clock, true exactly when fewer than `interval` ms have passed since the last accepted event; interval 0 never discards |
| GpioCommon.DiscardsRightAfterUpdate | peripherals/hermitretro/gpio_common.c:104-121 | in the millisecond of an update, a check discards exactly when its interval is positive; interval 0 never discards |
| GpioCommon.DiscardsMonotoneInInterval | peripherals/hermitretro/gpio_common.c:116 | a discard at interval i is a discard at every j >= i; an accept at j is an accept at every i <= j |
| GpioCommon.AcceptStaysAccepted | peripherals/hermitretro/gpio_common.c:116 | with no update in between and a clock that does not go back, an accepted check stays accepted later |
| GpioCommon.BackwardsClockAccepts | peripherals/hermitretro/gpio_common.c:116 | when the clock went backwards, the wrapped difference accepts every interval that does not reach past 2^64 from the timestamp |
| GpioCommon.MillisMonotone | peripherals/hermitretro/gpio_common.c:94-96 | `sec*1000 + usec/1000` does not decrease as the gettimeofday reading advances, within the non-wrapping range |
| EventTranslator.EventQueue.InputEvent | peripherals/hermitretro/gpio_joystick.c:76-77 | `input_event` appends the event with the timestamp in force at the call |
| EventTranslator.EventQueue.constructor | peripherals/hermitretro/gpio_joystick.c:76-77 | before any poll, nothing has been handed to `input_event` |
| EventTranslator.Transition | peripherals/hermitretro/gpio_joystick.c:182-188 | a LOW line sends exactly one press; a HIGH line sends one release exactly when the table had it pressed, and nothing otherwise |
| EventTranslator.StampAfter | peripherals/hermitretro/gpio_membrane.c:106-111 | after a batch, the timestamp is the clock or is left as it was |
| EventTranslator.StampAfterMeaning | peripherals/hermitretro/gpio_membrane.c:106-111 | a batch with any press leaves the timestamp at the clock; a batch of releases only leaves it where it was |
| EventTranslator.Dispatched | peripherals/hermitretro/gpio_membrane.c:97-129 | the log entries of a batch: one per event, in order |
| EventTranslator.HasPressAppend | peripherals/hermitretro/gpio_membrane.c:97-129 | a batch of two parts contains a press exactly when one of the parts does |
| EventTranslator.StampAfterAppend | peripherals/hermitretro/gpio_membrane.c:106-111 | the timestamp after two batches is the one after the second, starting from where the first left it |
| EventTranslator.DispatchedAppend | peripherals/hermitretro/gpio_membrane.c:97-129 | dispatching two batches one after the other logs the same as dispatching them together |
| EventTranslator.DispatchedSingle | peripherals/hermitretro/gpio_membrane.c:106-111 | a single press is logged with the fresh timestamp and moves it to the clock; a single release is logged with the old one and leaves it |
| GpioMembrane.KeyMapInjective | peripherals/hermitretro/gpio_membrane.c:76-85 | the 40 cells of `keyMap` hold 40 different keys, and cells (5,4) and (7,3) hold Shift_L and Control_R |
| GpioMembrane.KeyMapKeyboardOnly | peripherals/hermitretro/gpio_membrane.c:76-85 | every cell of `keyMap` holds a keyboard key: no joystick button, and neither of the menu keys Escape and F1 |
| GpioMembrane.SweepEvents | peripherals/hermitretro/gpio_membrane.c:268-294 | the sweep over the first n cells sends at most one event per cell |
| GpioMembrane.ScanEvents | peripherals/hermitretro/gpio_membrane.c:238-260 | a poll's events start with shift (press if LOW, else release), then symbol shift the same way |
| GpioMembrane.InSweep | peripherals/hermitretro/gpio_membrane.c:268-294 | an event is in the sweep exactly when some cell scanned so far emits it |
| GpioMembrane.SweepKey | peripherals/hermitretro/gpio_membrane.c:277-293 | the sweep presses a key exactly when its cell reads LOW; it releases it exactly when its cell reads HIGH and the table had it pressed, so a key is released once per held period; it never reports a modifier |
| GpioMembrane.ModifiersFirst | peripherals/hermitretro/gpio_membrane.c:239-260 | shift and symbol shift appear only in the two leading events: a press when LOW, a release otherwise, whatever the table says |
| GpioMembrane.SteadyReads | peripherals/hermitretro/gpio_membrane.c:282-293 | with reads matching the table, a held key is pressed again on every poll and nothing is released |
| GpioMembrane.QuietSweep | peripherals/hermitretro/gpio_membrane.c:268-294 | with no cell LOW and nothing in the table, the sweep sends nothing |
| GpioMembrane.IdlePoll | peripherals/hermitretro/gpio_membrane.c:238-294 | an idle keyboard still sends a shift release and a symbol shift release on every accepted poll, and nothing else |
| GpioMembrane.PollStampsIffKeyDown | peripherals/hermitretro/gpio_membrane.c:238-294 | an accepted poll refreshes the timestamp exactly when some cell reads LOW |
| GpioMembrane.MembraneKeyboard.constructor | peripherals/hermitretro/gpio_membrane.c:88 | the table is a fresh 8 x 5 array with every cell released |
| GpioMembrane.MembraneKeyboard.Init | peripherals/hermitretro/gpio_membrane.c:192-202 | every cell of `keysPressed` is 0 afterwards |
| GpioMembrane.MembraneKeyboard.PressKey | peripherals/hermitretro/gpio_membrane.c:91-112 | the cell is set, the timestamp becomes the clock, and then the press of `keyMap[r][c]` is logged with that timestamp; no other cell changes |
| GpioMembrane.MembraneKeyboard.UnpressKey | peripherals/hermitretro/gpio_membrane.c:114-130 | the cell is cleared and the release is logged; the timestamp is untouched; no other cell changes |
| GpioMembrane.MembraneKeyboard.ScanModifier | peripherals/hermitretro/gpio_membrane.c:238-248 | a modifier cell takes its read and sends a press or a release, whatever it held |
| GpioMembrane.MembraneKeyboard.ScanModifiers | peripherals/hermitretro/gpio_membrane.c:238-260 | shift and then symbol shift are each read and sent, press if LOW and release otherwise; the two modifier cells hold their reads and every other cell is untouched |
| GpioMembrane.MembraneKeyboard.ScanCell | peripherals/hermitretro/gpio_membrane.c:282-293 | a swept cell takes its read and sends what `Transition` prescribes for its old value |
| GpioMembrane.SweepStep | peripherals/hermitretro/gpio_membrane.c:272-294 | one more cell grows the record by that cell's events, dispatched from the timestamp the earlier cells left |
| GpioMembrane.MembraneKeyboard.SweepCell | peripherals/hermitretro/gpio_membrane.c:272-294 | one cell of the sweep, including the skip of the two modifier cells, extends the log, timestamp and table from the sweep up to the cell to the sweep through it |
| GpioMembrane.MembraneKeyboard.ScanRow | peripherals/hermitretro/gpio_membrane.c:272-294 | one row of the sweep extends the log, timestamp and table by that row's five cells |
| GpioMembrane.MembraneKeyboard.Sweep | peripherals/hermitretro/gpio_membrane.c:268-302 | after the sweep every cell holds its read, and the log and timestamp are those of the row-major sweep |
| GpioMembrane.MembraneKeyboard.Poll | peripherals/hermitretro/gpio_membrane.c:211-310 | with `gpioInit == 0` or a discarding check (interval x5 in a menu), nothing changes; otherwise every cell of the table holds its read, and the log and timestamp are those of `ScanEvents` on the old table |
| GpioJoystick.LineKey | peripherals/hermitretro/gpio_joystick.c:57 | every scanned line's key indexes a slot in [0, 19) of `joystickPressed` |
| GpioJoystick.LineKeysDistinct | peripherals/hermitretro/gpio_joystick.c:182-223 | the six lines have six different keys and six different slots |
| GpioJoystick.ScanLines | peripherals/hermitretro/gpio_joystick.c:182-223 | the first n line checks send at most one event per line |
| GpioJoystick.JoystickEvents | peripherals/hermitretro/gpio_joystick.c:182-223 | one poll sends at most one event for each of the six lines |
| GpioJoystick.TableAfter | peripherals/hermitretro/gpio_joystick.c:182-223 | the table keeps its 19 slots after the checks |
| GpioJoystick.TableAfterBefore | peripherals/hermitretro/gpio_joystick.c:182-223 | a line's slot is untouched until that line is checked |
| GpioJoystick.TableAfterPoll | peripherals/hermitretro/gpio_joystick.c:182-223 | after the checks every line's slot holds its read, and every other slot keeps its value |
| GpioJoystick.InScan | peripherals/hermitretro/gpio_joystick.c:182-223 | an event is among the checks exactly when one of the lines sends it |
| GpioJoystick.LineReport | peripherals/hermitretro/gpio_joystick.c:182-223 | a poll presses a line's button exactly when it reads LOW, and releases it exactly when it reads HIGH and its slot was set |
| GpioJoystick.OnlyJoystickZero | peripherals/hermitretro/gpio_joystick.c:69 | every event is for joystick 0 and names one of the six scanned buttons |
| GpioJoystick.PollStampsIffLineLow | peripherals/hermitretro/gpio_joystick.c:65-93 | an accepted poll refreshes the timestamp exactly when some line reads LOW |
| GpioJoystick.FireOneClick | peripherals/hermitretro/gpio_joystick.c:210-216 | FIRE 1 held for one poll and then let go: a press, then a single release, then silence |
| GpioJoystick.FirePressed | peripherals/hermitretro/gpio_joystick.c:210-211 | with only FIRE 1 LOW, the poll sends its press and sets only its slot |
| GpioJoystick.FireReleased | peripherals/hermitretro/gpio_joystick.c:212-216 | with every line HIGH after that, the poll sends the one release and clears the slot |
| GpioJoystick.QuietLines | peripherals/hermitretro/gpio_joystick.c:182-223 | lines that read HIGH and were not pressed send nothing |
| GpioJoystick.GpioJoystick.constructor | peripherals/hermitretro/gpio_joystick.c:57 | the 19-slot table starts all zero |
| GpioJoystick.GpioJoystick.PressJoystick | peripherals/hermitretro/gpio_joystick.c:59-78 | sets the slot `key - UP`, sets the timestamp to the clock, then logs the joystick-0 press |
| GpioJoystick.GpioJoystick.UnpressJoystick | peripherals/hermitretro/gpio_joystick.c:80-94 | clears the slot and logs the joystick-0 release, leaving the timestamp |
| GpioJoystick.GpioJoystick.CheckLine | peripherals/hermitretro/gpio_joystick.c:182-188 | one line check extends the table, log and timestamp from the first i checks to the first i+1 |
| GpioJoystick.GpioJoystick.Poll | peripherals/hermitretro/gpio_joystick.c:160-224 | with `gpioInit == 0` or a discarding check (50 ms, x3 in a menu), nothing changes; otherwise the table, log and timestamp are those of the six checks LEFT, RIGHT, UP, DOWN, FIRE 1, FIRE 2 |
| HermitController.BitLayout | peripherals/hermitretro/hermitretro_controller.c:198-237 | the eight masks are bits 0 to 7 in ascending order, and they name eight different buttons |
| HermitController.BitKey | peripherals/hermitretro/hermitretro_controller.c:198-237 | each bit drives one of the first eight joystick buttons, and bits 0 to 3 are exactly the four directions |
| HermitController.ControllerEvents | peripherals/hermitretro/hermitretro_controller.c:198-237 | one poll sends at most eight events, one per bit |
| HermitController.ChecksUnrolled | peripherals/hermitretro/hermitretro_controller.c:198-237 | a poll's events are the eight bit checks' events concatenated in order |
| HermitController.PopCountCountsBits | peripherals/hermitretro/hermitretro_controller.c:197-237 | the branch-free count of set bits equals the number of the eight single-bit tests that succeed |
| HermitController.EventCountIsPopCount | peripherals/hermitretro/hermitretro_controller.c:197-237 | the number of events equals the number of set bits in the register byte |
| HermitController.OnlyPresses | peripherals/hermitretro/hermitretro_controller.c:197 | every event is a joystick press; no release is ever sent |
| HermitController.PressIffBit | peripherals/hermitretro/hermitretro_controller.c:198-237 | a button is pressed exactly when its bit is set |
| HermitController.InChecks | peripherals/hermitretro/hermitretro_controller.c:198-237 | an event is among the first n checks exactly when one of them sends it |
| HermitController.AscendingOrder | peripherals/hermitretro/hermitretro_controller.c:198-237 | when the bits of `lo` all lie below those of `hi`, the events of the union of `lo` and `hi` are those of `lo` followed by those of `hi` |
| HermitController.LowChecksOnly | peripherals/hermitretro/hermitretro_controller.c:198-237 | checks at or above the highest set bit add nothing |
| HermitController.BitOfUnion | peripherals/hermitretro/hermitretro_controller.c:198-237 | each check of the union of `lo` and `hi` sends what the part owning that bit sends |
| HermitController.SplitChecksLow | peripherals/hermitretro/hermitretro_controller.c:198-237 | below the split, the checks of the union of `lo` and `hi` are those of `lo` and `hi` sends nothing |
| HermitController.SplitChecks | peripherals/hermitretro/hermitretro_controller.c:198-237 | from the split on, the checks of the union are all of `lo`'s followed by `hi`'s |
| HermitController.StampsIffNonZero | peripherals/hermitretro/hermitretro_controller.c:200-236 | an accepted poll moves the timestamp to the clock exactly when the byte is non-zero |
| HermitController.CheckBit | peripherals/hermitretro/hermitretro_controller.c:198-202 | one bit check extends the log and timestamp from the first b checks to the first b+1 |
| HermitController.Poll | peripherals/hermitretro/hermitretro_controller.c:176-238 | a discarding check (250 ms) changes nothing; otherwise the log and timestamp are those of the eight ordered bit checks on the register byte, whatever `readReg` returned |
| HermitZxZero.MenuEventsPressOnly | peripherals/hermitretro/hermitretro_zxzero.c:130-161 | a LOW pin sends exactly one key press with equal native and Spectrum keys, Escape in a menu and F1 otherwise; a HIGH pin sends nothing; no release is ever sent |
| HermitZxZero.MenuEvents | peripherals/hermitretro/hermitretro_zxzero.c:130-161 | at most one event, and one exactly when the pin reads LOW |
| HermitZxZero.InnerCheckRedundant | peripherals/hermitretro/hermitretro_zxzero.c:120-140 | with a clock that does not go back, the inner 250 ms check cannot discard once the outer one accepted |
| HermitZxZero.Poll | peripherals/hermitretro/hermitretro_zxzero.c:118-162 | a discarding outer check, a HIGH pin or a discarding inner check changes nothing; otherwise the timestamp is set to the clock, then the menu key press is logged with it |
| HermitI2c.Poll | peripherals/hermitretro/hermitretro_i2c_common.c:124-179 | the same decision against the ZX Zero 250 ms interval: nothing on a discard or a HIGH pin, otherwise a timestamp refresh, then the menu key press |
| LyraFrame.TagsDistinct | peripherals/hermitretro/hermitretro_lyra.h:31-44 | the four position tags are distinct, and each equals its own value masked with `TYPE_MASK` |
| LyraFrame.MasksDisjoint | peripherals/hermitretro/hermitretro_lyra.h:34-50 | every button mask is a single bit outside `TYPE_MASK`; the masks of each byte are pairwise disjoint, and those of bytes 2 and 3 cover the six low bits |
| LyraFrame.ChecksumOk | peripherals/hermitretro/hermitretro_lyra.c:279-282 | a frame passes exactly when its check byte, with every bit inverted, equals the 8-bit sum of the four data bytes |
| LyraFrame.Tagged | peripherals/hermitretro/hermitretro_lyra.c:288-300 | a byte can carry a tag only when the tag lies inside the two type bits |
| LyraFrame.ReadButtons | peripherals/hermitretro/hermitretro_lyra.c:288-300 | the battery level read from byte 0 fits its six bits (at most 63) |
| LyraFrame.FrameActions | peripherals/hermitretro/hermitretro_lyra.c:279-384 | a frame causes at most two table changes |
| LyraFrame.EncodeFrame | peripherals/hermitretro/hermitretro_lyra.c:288-294 | the firmware's frame per the layout comment is five bytes long |
| LyraFrame.Byte1Reads | peripherals/hermitretro/hermitretro_lyra.h:33-36 | byte 1 built per the layout carries its tag, and each mask reads back its button |
| LyraFrame.Byte6Reads | peripherals/hermitretro/hermitretro_lyra.h:37-50 | bytes 2 and 3 built per the layout carry their tag, and each of the six masks reads back its button |
| LyraFrame.BytesRoundTrip | peripherals/hermitretro/hermitretro_lyra.c:288-294 | the four data bytes built per the layout read back every button and the battery level |
| LyraFrame.EncodeChecksumOk | peripherals/hermitretro/hermitretro_lyra.c:279-282 | a frame built per the layout passes the checksum test |
| LyraFrame.EncodeTagged | peripherals/hermitretro/hermitretro_lyra.c:288-294 | a frame built per the layout passes the tag test of every byte |
| LyraFrame.EncodeReadRoundTrip | peripherals/hermitretro/hermitretro_lyra.c:288-294 | reading a frame built per the layout through the masks recovers every button and the battery level |
| LyraFrame.EncodedFrameActions | peripherals/hermitretro/hermitretro_lyra.c:302-354 | on a well-formed frame: VOLUME_UP overrides everything, then a VOLUME_DOWN press; otherwise a VOLUME_DOWN release, then, unless BOTTOM_RIGHT_3, a TOP_LEFT press or release; TOP_RIGHT, the directions, byte 3 and the battery level change nothing |
| LyraFrame.BadChecksumIgnored | peripherals/hermitretro/hermitretro_lyra.c:279-282 | a frame whose byte 4 differs from `(b0+b1+b2+b3) mod 256 xor 0xFF` changes nothing |
| LyraFrame.FrameActionsShape | peripherals/hermitretro/hermitretro_lyra.c:302-354 | a frame touches only VOLUME_DOWN and TOP_LEFT, VOLUME_DOWN first; a VOLUME_DOWN press ends the frame; VOLUME_UP is never pressed |
| LyraFrame.UntaggedByteSkipped | peripherals/hermitretro/hermitretro_lyra.c:302-354 | a byte 1 with the wrong tag is skipped, and byte 2 is still decoded |
| LyraFrame.VolumeDownFrame | peripherals/hermitretro/hermitretro_lyra.c:310-313 | the concrete frame 00 42 80 C0 7D presses VOLUME_DOWN and nothing else |
| Lyra.PressVolume | peripherals/hermitretro/hermitretro_lyra.c:174-189 | VOLUME_UP gives exactly v + 10 when that is at most 40, and 40 otherwise; VOLUME_DOWN gives exactly v - 10 when v is at least 10, and 0 otherwise; any other button leaves v |
| Lyra.PressEvents | peripherals/hermitretro/hermitretro_lyra.c:168-225 | a press sends at most one event, the menu key press, and sends it exactly when the button is TOP_LEFT and its 50 ms check accepts |
| Lyra.ButtonsAfter | peripherals/hermitretro/hermitretro_lyra.c:168-239 | the table keeps its 15 slots after any run of presses and releases |
| Lyra.ButtonsAfterUntouched | peripherals/hermitretro/hermitretro_lyra.c:168-239 | a slot that no press or release names keeps what it held |
| Lyra.VolumeAfter | peripherals/hermitretro/hermitretro_lyra.c:168-225 | from a level in [0, 40], each press or release moves the volume by at most 10 |
| Lyra.VolumeStaysInRange | peripherals/hermitretro/hermitretro_lyra.c:174-189 | a volume in [0, 40] stays there whatever presses and releases follow |
| Lyra.FrameTouchesTwoSlots | peripherals/hermitretro/hermitretro_lyra.c:302-354 | a frame changes only the VOLUME_DOWN and TOP_LEFT slots, each set by its press and cleared by its release |
| Lyra.TopLeftAlwaysOpensMenu | peripherals/hermitretro/hermitretro_lyra.c:195-197 | with a clock that does not go back, TOP_LEFT's own 50 ms check cannot block the menu key once the poll's check has accepted |
| Lyra.ButtonsAfterSnoc | peripherals/hermitretro/hermitretro_lyra.c:168-239 | after any run of presses and releases, one more sets or clears just its own slot |
| Lyra.VolumeUntouched | peripherals/hermitretro/hermitretro_lyra.c:172-220 | releases, and presses of buttons other than the volume keys, leave the volume |
| Lyra.LyraController.constructor | peripherals/hermitretro/hermitretro_lyra.c:77 | the 15-slot table starts all zero; the volume is whatever the audio code set |
| Lyra.LyraController.PressButton | peripherals/hermitretro/hermitretro_lyra.c:168-225 | sets the slot and adjusts the volume with its clamp; for TOP_LEFT, if its 50 ms check accepts, the timestamp is set to the clock and then the menu key press is logged |
| Lyra.LyraController.ReleaseButton | peripherals/hermitretro/hermitretro_lyra.c:228-239 | clears the slot, whatever it held, and nothing else |
| Lyra.LyraController.DecodeFrame | peripherals/hermitretro/hermitretro_lyra.c:279-384 | the table, volume, log and timestamp are those of applying `FrameActions` to the old state, in order |
| Lyra.LyraController.Poll | peripherals/hermitretro/hermitretro_lyra.c:245-423 | a discarding check (50 ms, x5 in a menu) changes nothing; otherwise the frame is decoded only when exactly 5 bytes are waiting, any other count leaves the table and volume alone, and the timestamp is refreshed at the end whatever the frame did |
| SdlJoystick.HeldAfterAppend | ui/sdl/sdljoystick.c:240-241 | which buttons are held after two batches follows from the first batch, then the second |
| SdlJoystick.HeldAfterFour | ui/sdl/sdljoystick.c:259-262 | which buttons are held after four batches follows from each batch in turn |
| SdlJoystick.ButtonAction | ui/sdl/sdljoystick.c:149-163 | buttons from 17 up are dropped; any other button sends one event of the given joystick and type |
| SdlJoystick.ButtonsDriveDistinctFire | ui/sdl/sdljoystick.c:155-162 | SDL button n presses and releases fire button n+1 only: no other fire button and no direction |
| SdlJoystick.DoAxis | ui/sdl/sdljoystick.c:205-242 | always 0 or 2 events, negative direction first; none exactly when the axis is within +-16384 and moved at most 256 since the last value |
| SdlJoystick.AxisHolds | ui/sdl/sdljoystick.c:216-241 | past +16384 the positive direction is held and the negative not, and the reverse past -16384; a centred axis holds neither unless it only fluttered, when both stay as they were |
| SdlJoystick.AxisRun | ui/sdl/sdljoystick.c:183-203 | a run of readings on one axis sends at most two events per reading |
| SdlJoystick.SlowDriftStep | ui/sdl/sdljoystick.c:232-236 | a run drifts slowly exactly when its first reading is centred and within 256 of the last value, and the rest drifts slowly from that reading |
| SdlJoystick.DriftIgnored | ui/sdl/sdljoystick.c:183-203 | successive readings on one axis send nothing exactly when every reading is centred and each is within 256 of the one before, however far the axis wanders in total |
| SdlJoystick.DoHat | ui/sdl/sdljoystick.c:265-280 | always a release of the direction, followed by a press exactly when the bit is set |
| SdlJoystick.HatMove | ui/sdl/sdljoystick.c:244-263 | hats other than 0 send nothing; hat 0 sends 4 to 8 events |
| SdlJoystick.DoHatOthers | ui/sdl/sdljoystick.c:265-280 | a direction's hat events leave every other key as it was |
| SdlJoystick.DoHatOwn | ui/sdl/sdljoystick.c:273-279 | a direction's hat events leave it held exactly when its bit is set |
| SdlJoystick.ButtonsAppend | ui/sdl/sdljoystick.c:259-262 | the keys a batch presses (or releases) in two parts are those of the first part followed by those of the second |
| SdlJoystick.PressAfterReleaseAppend | ui/sdl/sdljoystick.c:259-262 | joining two batches, each sending every press straight after its release, keeps that order when the second starts with a release |
| SdlJoystick.DoHatReleases | ui/sdl/sdljoystick.c:273-274 | one direction's hat events release that direction exactly once |
| SdlJoystick.DoHatPresses | ui/sdl/sdljoystick.c:276-279 | one direction's hat events press that direction once when its bit is set, and not at all otherwise |
| SdlJoystick.DoHatPressAfterRelease | ui/sdl/sdljoystick.c:273-279 | a direction's press, when there is one, comes straight after its release |
| SdlJoystick.ButtonsOfFour | ui/sdl/sdljoystick.c:259-262 | the keys of four batches sent in turn are those of each batch, in order |
| SdlJoystick.HatReleaseOrder | ui/sdl/sdljoystick.c:259-262 | a hat 0 move releases UP, DOWN, RIGHT and LEFT, in that order |
| SdlJoystick.HatPressOrder | ui/sdl/sdljoystick.c:259-279 | a hat 0 move presses exactly the directions whose bits are set, in the order UP, DOWN, RIGHT, LEFT |
| SdlJoystick.HatPressAfterRelease | ui/sdl/sdljoystick.c:259-279 | in a hat 0 move, each press comes straight after the release of the same direction |
| SdlJoystick.HatHolds | ui/sdl/sdljoystick.c:259-262 | after a move of hat 0, each of UP, DOWN, RIGHT and LEFT is held exactly when its bit is set, whatever was held before |
| SdlJoystick.AxisMemory.constructor | ui/sdl/sdljoystick.c:60-61 | both last axis values start at 0 |
| SdlJoystick.AxisMemory.AxisMove | ui/sdl/sdljoystick.c:183-203 | axis 0 drives LEFT/RIGHT and axis 1 drives UP/DOWN, each judged against its own last value, which the new value then replaces; other axes do nothing |

## Left out

- GPIO, serial and I2C transport are left out. This covers the `bcm2835_*` pin calls, the serial request/flush/delay/read calls and `readReg`. They are foreign I/O: the model takes the pin levels, the number of bytes waiting, the frame bytes and the register byte as inputs. Row driving, pull-ups and the 50 ms wait are not modelled.
- `gettimeofday` is not modelled; each poll takes the millisecond reading as a parameter. `Millis` models only the conversion from seconds and microseconds.
  - The membrane, joystick and controller polls take one reading, as if every clock read within the poll fell in the same millisecond.
  - The menu-button polls and the Lyra poll take two readings: `now` for the first debounce check, and `later` for the inner check, the decode and the final refresh.
- Module registration, startup wiring, `*_init`/`*_end` settings defaults, SDL setup and event pumping are left out: they are configuration and library glue.
- Debug `printf`/`fprintf` output and the `#ifdef PANTS` block of the Lyra poll are left out. The block is never compiled, and the printing has no effect on state.
- `ui_widget_level` and `settings_current.debounce_interval` come from code that is not part of this model, and are parameters.
- `input_event` is an external sink; the model only records each call in a ghost log.
- `NUM_JOY_BUTTONS` is taken as 17, the value the code's own comment gives; `ui/uijoystick.h` is not part of this model.
- The `input_key` enumeration is not part of this model. Joystick keys are numbered by their distance from INPUT_JOYSTICK_UP, in the order UP, DOWN, LEFT, RIGHT, FIRE_1 onward, as the 19-slot table and its indexing assume. SDL's hat bit values are SDL's.
- The controller poll never assigns `fuse_event.types.joystick.which`, so the model takes it as a parameter. The controller's and the I2C build's unused local 50 ms constants are not modelled.
- `hermitretro_controller.c` and `hermitretro_i2c_common.c` define the same poll symbol, and both use the constant defined in `hermitretro_zxzero.c`. They are modelled as two separate modules, and no link-time choice between them is made.
- Tables are `bool`: the drivers only ever store 0 and 1 in them.
- `volumeLevel` is an unbounded `int`; its C `int` overflow is not modelled. Its initial value is defined outside the driver and is a constructor parameter. The ALSA volume call is only a comment in the source.
- The battery level in byte 0 is read by `ReadButtons` but never used by the poll, as in the source.
- LyraFrame.ChecksumOf: no lemma states that the checksum catches a corrupted byte; the model states only when a frame passes.
- GpioCommon.ScaledInterval: the product is stated only where it does not overflow 64 bits (the function itself wraps it), since the intervals used are 50 ms and the settings value.
