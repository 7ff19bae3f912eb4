# EC11 rotary encoder scan engine

A Dafny model of the input engine in `src/ec11.rs` of an ESP32-C3 firmware.
The engine polls an EC11 rotary encoder: two quadrature phase pins, A and B,
and an active-low push key. It turns the noisy pin levels into a stream of
`Ec11Event`s: `Clicked`, `DoubleClicked`, `Rotate(dir, position, delta)`,
`ClickedRotate(dir, position, delta)` and the never-sent `Empty`.

Each pass of the worker loop does five things:

- It debounces A and the key by re-reading each after a settle delay.
- It decodes A and B as clock and data: a falling A is a detent start, a rising A a detent end.
- A detent end moves a wrapping `i32` position.
- It classifies key edges as Pressed, Released, TwicePressed or TwiceReleased, with a 200 ms double-press window.
- It combines the rotation and press statuses of the tick into one event and sends every non-`Empty` event to a channel.

Layout:

- `wrapping.dfy` (module `Wrapping`): the `i32` and `i8` types and Rust's `wrapping_add` / `wrapping_sub`, written out over unbounded integers.
- `ec11.dfy` (module `Ec11`): the enums, the engine state as a value, the pure quadrature decode, the event table (`Arbitrate`), and one tick as a function `Tick`. It also defines runs of ticks (`Run`) and the events they send (`Published`).
- `ec11_engine.dfy` (module `Ec11Service`): the worker's loop variables as the fields of class `Ec11Engine`. `Step` is one pass of the loop body in imperative form, and `Scan` is the loop over a finite sequence of ticks. The channel is the ghost field `published`. Both methods are proved against `Tick` and `Run`.
- `ec11_properties.dfy` (module `Ec11Properties`): what a tick and a run guarantee. This covers the debounce, the detent edges, the wrapping position law, key classification, the held key, the sticky rotated-while-pressed flag, and end-to-end click, double-click and rotation scenarios.

Every pin read of one pass is an input of the tick (`Samples`):

- `aFirst`: the first A read. `aSettled`: the re-read after the settle delay.
- `b`: the single B read made once a change of A is confirmed.
- `keyFirst`, `keySettled`: the two key reads.
- `keyThird`: the separate key read that becomes the remembered key level.
- `now`: the clock reading, in milliseconds since start-up.

A tick requires `firstReleased <= now`. The clock is monotonic, and Rust's `Duration` subtraction in the double-press test would panic otherwise.

## Model

| member | source | states |
|---|---|---|
| `Wrapping.Wrap` | src/ec11.rs:125-128 | the result is the unique `i32` congruent to the input modulo 2^32, and equals the input when that is in `i32` range |
| `Wrapping.WrappingAdd` | src/ec11.rs:125 | `wrapping_add`: the exact sum when it fits in `i32`, otherwise the sum minus or plus 2^32 |
| `Wrapping.WrappingSub` | src/ec11.rs:128 | `wrapping_sub`: the exact difference when it fits in `i32`, otherwise the difference minus or plus 2^32 |
| `Wrapping.WrapAbsorbs` | src/ec11.rs:122-130 | wrapping after every step gives the same value as wrapping once at the end |
| `Ec11.Initial` | src/ec11.rs:71-84 | the state before the first tick holds the first A and key reads, position 0, the start-up clock reading as release moment, and all flags clear |
| `Ec11.ScanRotation` | src/ec11.rs:93-132 | a rotation status appears iff both A reads differ from the remembered A level; then the settled A level is remembered, the status is an End iff A rose and clockwise iff A and B differ; only CwEnd (+1) and CcwEnd (-1) move the position, wrapping; without an edge nothing changes |
| `Ec11.ScanKey` | src/ec11.rs:134-169 | a press status appears iff both key reads differ from the remembered key level, and the third read is then remembered. A falling key sets has_pressed and is TwicePressed iff at most 200 ms have passed since the release moment. A rising key clears has_pressed and the twice flag, gives TwiceReleased iff the twice flag was set and Released otherwise, and only Released records `now`. Without an edge nothing changes |
| `Ec11.DecodeRotation` | src/ec11.rs:113-130 | a confirmed A edge gives an End status exactly when A rose, and a clockwise status exactly when A and B differ |
| `Ec11.Arbitrate` | src/ec11.rs:180-203 | the event table. Clicked iff (None, Released) and no rotation while pressed. DoubleClicked iff (None, TwiceReleased). Rotate iff an End with no press status. ClickedRotate iff an End with Pressed. Rotate and ClickedRotate carry the End's direction, the given position and delta +1 for Cw or -1 for Ccw. Everything else is Empty |
| `Ec11.Tick` | src/ec11.rs:86-210 | one pass of the loop body; the release moment is either kept or becomes the current clock reading |
| `Ec11.Publish` | src/ec11.rs:205-207 | Empty is never sent; any other event is sent exactly once |
| `Ec11.Run` | src/ec11.rs:86-210 | running the loop over n ticks gives exactly n tick results |
| `Ec11.Published` | src/ec11.rs:205-207 | the events sent by a run never include Empty and number at most one per tick |
| `Ec11.PublishedAppend` | src/ec11.rs:205-207 | the events of two consecutive stretches of ticks are those of the first stretch followed by those of the second (tick order, no reordering) |
| `Ec11Service.Ec11Engine.constructor` | src/ec11.rs:71-84 | initial state: the first A and key reads, position 0, the start-up clock reading as release moment, all flags clear, nothing sent |
| `Ec11Service.Ec11Engine.ScanPhaseA` | src/ec11.rs:93-132 | the A/B half of the loop body updates the remembered A level and the position, and yields the rotation status, as `ScanRotation` describes |
| `Ec11Service.Ec11Engine.ScanKeyPin` | src/ec11.rs:134-169 | the key half of the loop body updates the key variables and yields the press status, as `ScanKey` describes |
| `Ec11Service.Ec11Engine.Step` | src/ec11.rs:86-210 | one pass leaves the fields in `Tick`'s new state, returns `Tick`'s event and appends it to the channel unless it is Empty |
| `Ec11Service.Ec11Engine.Scan` | src/ec11.rs:86-210 | the loop over a finite sequence of ticks leaves the state after `Run` and appends exactly `Published(Run(...))` to the channel |
| `Ec11Properties.DebounceRejectsNoise` | src/ec11.rs:93-109 | a rotation status appears iff both A reads differ from the remembered level; otherwise neither the remembered level nor the position changes |
| `Ec11Properties.FallingEdgeStartsDetent` | src/ec11.rs:113-120 | a confirmed falling A gives CwStart if B is High and CcwStart if B is Low; the position is unchanged and the event is Empty |
| `Ec11Properties.RisingEdgeEndsDetent` | src/ec11.rs:121-130 | a confirmed rising A with B Low gives CwEnd and a wrapping +1; with B High it gives CcwEnd and a wrapping -1 |
| `Ec11Properties.TickMovesByEndStep` | src/ec11.rs:122-130 | one tick moves the position by +1 on CwEnd, -1 on CcwEnd and 0 otherwise, wrapped to `i32` |
| `Ec11Properties.RunIsPositionChain` | src/ec11.rs:86-130 | in any run, each tick's position is the previous tick's position moved by that tick's step |
| `Ec11Properties.ChainEndsAtNetCount` | src/ec11.rs:122-130 | along such a chain, the last position is the first plus (#CwEnd - #CcwEnd), wrapped to `i32` |
| `Ec11Properties.PositionCountsDetentEnds` | src/ec11.rs:122-130 | after any run the position is the start position plus (#CwEnd - #CcwEnd), wrapped to `i32`; Start statuses do not count |
| `Ec11Properties.PositionFromZero` | src/ec11.rs:73-130 | from position 0, the position after N CwEnd and M CcwEnd is congruent to N - M modulo 2^32 |
| `Ec11Properties.KeyFallingEdgeIsPress` | src/ec11.rs:134-152 | a confirmed falling key sets has_pressed. The status is TwicePressed, with the twice flag set, when at most 200 ms have passed since the release moment, and Pressed otherwise. The remembered key level is the third read |
| `Ec11Properties.KeyRisingEdgeIsRelease` | src/ec11.rs:153-167 | a confirmed rising key clears has_pressed and the twice flag. After a second press it gives TwiceReleased and keeps the release moment. Otherwise it gives Released and records `now` |
| `Ec11Properties.HeldKeyStaysPressed` | src/ec11.rs:134-174 | without a confirmed key edge the key variables are unchanged, and the press status is Pressed exactly when the key is held |
| `Ec11Properties.RotatedWhilePressedFlag` | src/ec11.rs:176-178 | the rotated-while-pressed flag is set after a tick iff it was already set, or the key is held and a rotation status (Start or End) appeared |
| `Ec11Properties.HeldRotationIsClickedRotate` | src/ec11.rs:176-200 | a detent end while the key is held yields ClickedRotate with the already-updated position and delta ±1, and sets the flag |
| `Ec11Properties.RotatedWhilePressedSuppressesClicks` | src/ec11.rs:176-188 | once the flag is set it stays set on every later tick, and no later tick produces or sends Clicked |
| `Ec11Properties.ClockwiseDetentScenario` | src/ec11.rs:113-207 | from rest at position 0, A falling with B High and then A rising with B Low sends exactly `[Rotate(Cw, 1, 1)]` |
| `Ec11Properties.DoubleClickScenario` | src/ec11.rs:143-189 | two press/release cycles whose second press comes within 200 ms of the first release send `[Clicked, DoubleClicked]` |
| `Ec11Properties.TwoClicksScenario` | src/ec11.rs:143-189 | two press/release cycles more than 200 ms apart send `[Clicked, Clicked]` |
| `Ec11Properties.StartupPressIsSecondPress` | src/ec11.rs:80-189 | a single press within 200 ms of start-up, then its release, sends `[DoubleClicked]`, because the release moment starts at the start-up clock reading |

Three behaviours of the code that a reader might not expect are modelled as written:

- `has_rotate_in_pressed` is set at src/ec11.rs:176-177 and never cleared. Once any rotation has happened while the key was held, no Clicked is ever sent again (`RotatedWhilePressedSuppressesClicks`).
- A double click sends Clicked for its first release and DoubleClicked for its second (`DoubleClickScenario`). A double click is not a single DoubleClicked with no Clicked.
- A first click within 200 ms of start-up is reported as DoubleClicked (`StartupPressIsSecondPress`).

## Left out

- GPIO set-up, pull-ups and `PinDriver` (src/ec11.rs:56-64) are hardware wrappers. Pin levels are inputs of each tick.
- The worker and logger threads (src/ec11.rs:70, 213-217) and the mpsc channel (src/ec11.rs:66) are concurrency and I/O. The channel is the ghost sequence `published`, and the logging consumer is not modelled.
- `event_tx.send(event).ok()` (src/ec11.rs:206) discards a send error when the receiver is gone. The model always appends the event.
- The 1 ms sleeps (src/ec11.rs:94, 135, 209) are not modelled. They let the re-reads see other levels, and those re-reads are separate inputs. They also take time: every pass lasts at least 1 ms, plus 1 ms per confirmed debounce. The model does not capture that time. `ClockFrom` only asks that clock readings never go back, so `now` may stay the same from one tick to the next. The model therefore accepts more clock sequences than the firmware produces, and every property holds for all of them.
- `Instant` / `Duration` time is a `nat` count of milliseconds since start-up. Sub-millisecond resolution is not modelled, so the 200 ms test is made on whole milliseconds.
- `Ec11Service.Ec11Engine.Scan`: the source loop never ends. The model runs it over any finite sequence of ticks.
- The commented-out `LongClicked` variant (src/ec11.rs:45) is not part of this model.
- src/wifi.rs, src/oled.rs and src/main.rs (network, display and start-up wiring) are not part of this model.
