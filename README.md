# LED selector firmware for the STM32F0 Discovery board — Dafny model

The firmware blinks one of the board's two user LEDs (green on PC9, blue on PC8).
The user button (PA0) chooses which LED blinks. A potentiometer read by the ADC sets
the blink period. Three activities share two cells:

- the selector cell `LED`, holding Green or Blue;
- the period cell `IDLE_TIME`, a `u16`.

This model covers the following parts of `src/main.rs`:

- `selector.dfy`, module `Selector`: `LedType` and its `toggle`.
- `shared.dfy`, module `Shared`:
  - the two shared cells, as the classes `LedCell` and `IdleTime`;
  - `set_led`;
  - the `as u64` widening of a loaded sample.
- `driver.dfy`, module `Driver`: one pass of the `led_task` loop, as `Drive` on pin levels and as the class `LedTask`.
  - If the selector is Green, the blue LED is forced Low and the green LED is inverted.
  - If it is Blue, the roles are swapped.
  - The pass then waits for the period read from `IDLE_TIME`.
- `control.dfy`, module `Control`: the press/release loop at the end of `main`.
  - It is a two-phase machine, `WaitingForPress` then `WaitingForRelease`, as `Next`/`Feed` and as the class `ButtonLoop`.
  - It runs over a finite sequence of button edges.
- `board.dfy`, module `Board`: the three activities together.
  - The executor is not modelled. Every moment a task resumes is an event: a button edge, an ADC reading, or the driver's timer expiring.
  - A run is any finite sequence of such events, so every interleaving is covered.
  - `Board.Board` is the same state held in the objects above.

Pin levels are booleans, with `true` meaning `Level::High`. The pins start green High and blue Low.
`toggle` flips a `Copy` enum through `&mut self`. Here it is the function `Toggled`, and callers reassign its result in place (`ledType := Toggled(ledType)`).
An edge that a loop is not waiting for changes nothing:

- `wait_for_rising_edge` does not react to a falling edge;
- `wait_for_falling_edge` does not react to a rising edge.

Two facts about the code shape the model:

- The driver inverts the selected LED on every pass (`toggle`, src/main.rs:55 and 59), so that LED blinks and is not held High.
- `IDLE_TIME` is an `AtomicU16` (src/main.rs:40), so the wait is at most 65535 ms.

## Model

| member | source | states |
|---|---|---|
| Selector.Toggled | src/main.rs:31-36 | `toggle` always changes the selector: it has no fixed point |
| Selector.ToggledIsInvolution | src/main.rs:31-36 | toggling twice restores the original selector |
| Selector.ToggledTimesParity | src/main.rs:31-36 | n toggles give the original selector if n is even and the other one if n is odd |
| Selector.GreenAfterEvenFlips | src/main.rs:100-103 | from Green, n toggles give Green iff n is even and Blue iff n is odd |
| Shared.LedCell.constructor | src/main.rs:39 | the shared selector cell starts as Green |
| Shared.SetLed | src/main.rs:110-113 | after `set_led(t)` the shared cell holds exactly `t` |
| Shared.IdleTime.constructor | src/main.rs:40 | the idle-time cell starts at 0 |
| Shared.IdleTime.Store | src/main.rs:78-79 | the raw ADC sample is stored unchanged |
| Shared.IdleTime.Load | src/main.rs:64 | a load yields the last stored value and changes nothing |
| Shared.Widen | src/main.rs:64 | the `as u64` widening keeps the number, which is at most 65535 |
| Driver.Drive | src/main.rs:52-61 | a pass inverts the selected LED and forces the other Low, so the two are never both High |
| Driver.SwitchTurnsPreviousOff | src/main.rs:53-60 | after the selector switches, the next pass turns the previously selected LED off whatever its level |
| Driver.RunNeverBothHigh | src/main.rs:43-65 | from green High and blue Low, any number of passes under any selectors never has both LEDs High; after a pass the LED not selected is Low |
| Driver.Run | src/main.rs:46-65 | the driver loop iterated over the selectors it reads: with no pass the pins are unchanged; after any pass both LEDs are not High and the LED the last pass did not select is Low |
| Driver.SteadySelectorBlinks | src/main.rs:46-65 | under a fixed selector, the selected LED alternates each pass and the other stays Low |
| Driver.LedTask.constructor | src/main.rs:90-91 | the pins start green High and blue Low |
| Driver.LedTask.Iterate | src/main.rs:47-64 | one loop iteration drives the pins as `Drive` does from the selector cell; it writes neither shared cell; its wait equals the stored idle time |
| Control.Next | src/main.rs:101-107 | only a rising edge while waiting for a press changes the selector, to its toggle, and moves to waiting for release; falling edges never toggle; a falling edge while waiting for release returns to waiting for a press |
| Control.Feed | src/main.rs:101-107 | the button loop iterated over edges: with no edge the state is unchanged; after a rising edge it waits for a release and after a falling edge for a press; falling edges alone never change `led_type` |
| Control.FeedFlipsOncePerPress | src/main.rs:101-107 | after any edge sequence the local selector is the start selector toggled once per accepted press |
| Control.GreenIffEvenPresses | src/main.rs:100-107 | starting from Green, the local selector is Green iff the number of presses is even |
| Control.PressesAtMostRising | src/main.rs:101-103 | presses never outnumber rising edges |
| Control.AlternatingEdgesAllCount | src/main.rs:101-107 | on alternating rising/falling edges, every rising edge is a press; the loop waits for a press exactly after an even number of edges |
| Control.ButtonLoop.constructor | src/main.rs:100 | the loop starts waiting for a press with `led_type` Green |
| Control.ButtonLoop.OnEdge | src/main.rs:102-106 | one edge updates phase and `led_type` as `Next` does; the shared cell keeps holding `led_type` |
| Control.ButtonLoop.Run | src/main.rs:101-107 | running the loop over edges reaches the state given by `Feed`, and the shared cell equals `led_type` afterwards |
| Board.Step | src/main.rs:46-107 | only the button loop writes the selector cell, and only on an accepted press, where it writes the new `led_type`; only the sampler writes the idle time, with the sample; only the driver changes the pins, as `Drive` does |
| Board.WaitAfter | src/main.rs:64-106 | the button loop waits for an edge (lines 102, 106), the sampler for 100 ms (line 80), the driver for the stored idle time as `u64` (line 64), which is at most 65535 |
| Board.Replay | src/main.rs:46-107 | a run of the three loops in any interleaving: the button state and selector cell change only through button edges, the idle time only through ADC readings, the pins only through driver passes |
| Board.StepKeepsInv | src/main.rs:100-113 | every event preserves "shared cell equals the button loop's `led_type`" and "never both LEDs High" |
| Board.ReplayFromBoot | src/main.rs:39-107 | in every interleaving from start-up, the invariant holds; the button loop has consumed exactly the trace's edges; the idle time is the last sample (0 if none) |
| Board.SharedSelectorParity | src/main.rs:100-113 | in every interleaving the shared selector is Green iff the number of presses is even |
| Board.DriverWakeFromBoot | src/main.rs:52-64 | after a driver pass the LED not selected is Low; the wait that follows is the last stored sample as `u64`, at most 65535 |
| Board.Board.constructor | src/main.rs:85-100 | the objects start in the start-up state |
| Board.Board.Handle | src/main.rs:46-107 | resuming a task changes the objects as `Step` does and returns its next wait: an edge, 100 ms for the sampler, the idle time for the driver |
| Board.Board.Run | src/main.rs:46-107 | handling a trace of events reaches the state given by `Replay` |

## Left out

- The async executor, `Spawner`, task spawning and the `.unwrap()` on spawn are replaced by arbitrary event sequences. Fairness and scheduling order are not modelled.
- The `Mutex<ThreadModeRawMutex, RefCell<…>>` lock, `RefCell` borrow checks and `Ordering::Relaxed` are not modelled. Each cell is a plain field that is read and written as one step.
- Timer semantics are not modelled: the model returns the number of milliseconds a task asks to wait, but does not say how long it actually waits.
- Hardware bring-up is not modelled: `embassy_stm32::init`, `Output::new`, `ExtiInput::new`, `Adc::new`, `set_sample_time` and `bind_interrupts!`. Only the initial pin levels are kept.
- The ADC conversion itself is not modelled. Each reading is an event that carries an arbitrary `u16`.
- `defmt` logging (`info!`), `panic_probe` and `defmt_rtt` are I/O and fault handling.
- The infinite loops are modelled over finite sequences of events or edges. Every finite prefix of a run is covered; behaviour "forever" is not stated.
