# Raspberry Pi 4 GPIO kernel modules: register access and button debouncing

This project models, in Dafny, the parts of three Linux kernel modules for the
Raspberry Pi 4 that hold real logic:

- `11_ledblink_by_mmio/hello_mmio.c` drives a pin by writing the BCM2711 GPIO
  block directly. `gpio_pin_on` and `gpio_pin_off` set the pin's 3-bit field in
  function-select word `pin / 10` to `001` (output) by a read-modify-write. Then
  they store `1 << pin` into GPSET0 (byte 0x1c, word 7) or GPCLR0 (byte 0x28,
  word 10). The proc write handler `lll_write` clamps the size to 1024, checks
  that two numbers were parsed, checks the value is 0 or 1, and dispatches.
  Module `HelloMmio` (mmio.dfy) holds this. The mapped window is the class
  `GpioWindow` over an `array<bv32>`; its methods are proved against the
  function `Applied` on the word sequence, and the lemmas state the bit-level
  effects.
- `10_button_with_dt/dt_button.c` and `08_timer_with_button/timer_button.c`
  poll a button every 10 ms. Each tick shifts the sample into a three-deep
  history. When the three samples agree they become `last_button_state`. The
  LED is toggled (`1 - level`) when the confirmed level goes from RELEASED (1)
  to PRESSED (0). Module `Debounce` (debounce.dfy) holds the shared step
  `Next` / `Fires` and the multi-tick lemmas: toggles and confirmed releases
  alternate, so there is one toggle per press.
- The same two files acquire their GPIOs and arm the timer step by step, with
  rollback on failure. Module `DtButton` (dt_button.dfy) models the probe and
  remove of the device-tree driver. Module `TimerButton` (timer_button.dfy)
  models the module init and exit of the integer-GPIO variant. The latter
  addresses the button as line 17 + 512 and the LED as line 18 + 512. Each is
  a class with the module-scope fields, whose methods are proved against a
  pure outcome function (`ProbeSpec`, `InitSpec`).
- Module `Kernel` (kernel.dfy) holds the errno values used: EIO 5, EBUSY 16,
  ENODEV 19.

The kernel's answers are parameters of the model. These are the
device-tree property lookups, `gpiod_get`, `gpio_request`, the
`gpio_direction_*` results, `copy_from_user` failing and what `sscanf`
parsed.

## Model

| member | source | states |
|---|---|---|
| `HelloMmio.FselBounds` | 11_ledblink_by_mmio/hello_mmio.c:18-19 | pins 0..31 use GPFSEL0..3, and the pin's field shift is at most 27 |
| `HelloMmio.SelectOutputField` | 11_ledblink_by_mmio/hello_mmio.c:26-30 | after the clear-then-OR, the pin's 3-bit field reads 001 (output), and the word with that field masked out equals the old one |
| `HelloMmio.SelectOutputFieldBits` | 11_ledblink_by_mmio/hello_mmio.c:26-30 | bit by bit, the field reads 1, 0, 0 from its lowest bit |
| `HelloMmio.SelectOutputKeepsOtherBits` | 11_ledblink_by_mmio/hello_mmio.c:26-29 | every bit outside `[shift, shift+3)` of the function-select word is unchanged |
| `HelloMmio.SelectOutputKeepsOtherFields` | 11_ledblink_by_mmio/hello_mmio.c:26-29 | a 3-bit field that does not overlap the written one keeps its code |
| `HelloMmio.FieldsOfDistinctPinsDisjoint` | 11_ledblink_by_mmio/hello_mmio.c:18-19 | two different pins of one function-select word have non-overlapping fields |
| `HelloMmio.SelectOutputKeepsOtherPins` | 11_ledblink_by_mmio/hello_mmio.c:18-29 | selecting one pin's function leaves the function of the other nine pins of the word unchanged |
| `HelloMmio.SelectOutputIdempotent` | 11_ledblink_by_mmio/hello_mmio.c:26-29 | repeating the read-modify-write on a word changes nothing more |
| `HelloMmio.PinBitExact` | 11_ledblink_by_mmio/hello_mmio.c:33 | the stored level mask `1 << pin` has exactly the pin's bit set |
| `HelloMmio.AppliedEffect` | 11_ledblink_by_mmio/hello_mmio.c:15-57 | on/off makes the pin an output; on stores `1 << pin` into GPSET0 and leaves GPCLR0, off does the reverse; every other word is unchanged |
| `HelloMmio.AppliedKeepsOtherPinFunctions` | 11_ledblink_by_mmio/hello_mmio.c:21-29 | after driving a pin, every other pin 0..31 keeps its function code |
| `HelloMmio.AppliedIdempotent` | 11_ledblink_by_mmio/hello_mmio.c:26-33 | driving the same pin the same way twice leaves the block as driving it once |
| `HelloMmio.Clamp` | 11_ledblink_by_mmio/hello_mmio.c:70-72 | a request within 1024 bytes is kept, and a larger request is cut to exactly 1024 |
| `HelloMmio.Decide` | 11_ledblink_by_mmio/hello_mmio.c:64-98 | the handler with the range test corrected only drives pins below 32 |
| `HelloMmio.DecideAsWritten` | 11_ledblink_by_mmio/hello_mmio.c:73-97 | as written, the handler drives a pin exactly when the copy succeeded, two numbers were parsed and the value is 0 or 1, whatever the pin; the drive is on for 1 and returns the clamped size; a failed copy returns 0, a parse count other than 2 returns that count, and a value other than 0/1 returns the value, for every pin (`40,7` returns 7) |
| `HelloMmio.PinCheckAsWrittenAdmitsAll` | 11_ledblink_by_mmio/hello_mmio.c:82-85 | the test `pin < 0 && pin > 31` on an unsigned pin never holds, for every pin |
| `HelloMmio.PinFortyDispatched` | 11_ledblink_by_mmio/hello_mmio.c:82-95 | as written, the write `40,1` drives pin 40 on |
| `HelloMmio.NegativePinDispatched` | 11_ledblink_by_mmio/hello_mmio.c:66-95 | as written, the write `-1,1`, which leaves 0xFFFFFFFF in the unsigned pin, drives that pin on |
| `HelloMmio.DecideAgreesBelow32` | 11_ledblink_by_mmio/hello_mmio.c:76-97 | the corrected handler behaves as written for every pin below 32 and returns the pin for larger ones |
| `HelloMmio.DecideRejections` | 11_ledblink_by_mmio/hello_mmio.c:73-91 | with the range test corrected, a failed copy returns 0, a parse count other than 2 returns that count, and a value other than 0/1 returns the value for a pin below 32 |
| `HelloMmio.DecideDrives` | 11_ledblink_by_mmio/hello_mmio.c:87-97 | a pin is driven if and only if the input is well formed; then it is driven on for value 1 and off for 0, and the clamped size is returned |
| `HelloMmio.GpioWindow.constructor` | 11_ledblink_by_mmio/hello_mmio.c:109 | the window is the mapped array, of at least 11 words (up to GPCLR0) |
| `HelloMmio.GpioWindow.PinOn` | 11_ledblink_by_mmio/hello_mmio.c:15-35 | the new register words are `Applied(old, pin, on)` |
| `HelloMmio.GpioWindow.PinOff` | 11_ledblink_by_mmio/hello_mmio.c:37-57 | the new register words are `Applied(old, pin, off)` |
| `HelloMmio.GpioWindow.Write` | 11_ledblink_by_mmio/hello_mmio.c:64-98 | returns the decided code; a rejection leaves every register unchanged, and a drive updates them as PinOn or PinOff |
| `Debounce.NextLed` | 10_button_with_dt/dt_button.c:47-50 | the LED level changes on a tick if and only if the tick fires |
| `Debounce.NextShifts` | 10_button_with_dt/dt_button.c:42-44 | a tick shifts the history: b3 := b2, b2 := b1, b1 := sample |
| `Debounce.UnstableIsInert` | 10_button_with_dt/dt_button.c:45-53 | while the three samples disagree, the confirmed level is kept and nothing fires |
| `Debounce.StableConfirms` | 10_button_with_dt/dt_button.c:45-53 | three agreeing samples become the confirmed level |
| `Debounce.FiresIff` | 10_button_with_dt/dt_button.c:45-50 | a tick fires if and only if this sample and the two before it are PRESSED and the confirmed level was RELEASED, that is, exactly on a RELEASED-to-PRESSED confirmation |
| `Debounce.TogglesBalanceReleases` | 10_button_with_dt/dt_button.c:45-53 | over any run, toggles + (final level RELEASED) = confirmed releases + (initial level RELEASED) |
| `Debounce.OneTogglePerPress` | 10_button_with_dt/dt_button.c:47-52 | from a confirmed PRESSED level, a run toggles no more often than it confirms a release |
| `Debounce.NoRetoggleWhileHeld` | 10_button_with_dt/dt_button.c:47-52 | after a toggle, no tick toggles again until a stable RELEASED window is confirmed |
| `Debounce.InitialNeedsRelease` | 10_button_with_dt/dt_button.c:26-29 | from the initial globals (history RELEASED, confirmed level 0), every toggle needs a prior confirmed release |
| `Debounce.RunLedParity` | 10_button_with_dt/dt_button.c:50 | after a run the LED is flipped exactly when an odd number of ticks toggled it |
| `Debounce.CleanPressTogglesOnce` | 10_button_with_dt/dt_button.c:38-56 | from any state, three RELEASED then three PRESSED samples toggle exactly once and leave the level PRESSED |
| `Debounce.NoisySampleIgnored` | 10_button_with_dt/dt_button.c:42-53 | one PRESSED glitch in RELEASED samples, from the initial state, toggles nothing |
| `Debounce.TwoPressesRestoreLed` | 10_button_with_dt/dt_button.c:47-52 | two clean presses from the initial state bring the LED back to its starting level |
| `DtButton.MissingPropertyIsNoDev` | 10_button_with_dt/dt_button.c:97-112 | a missing `label`, `my_value`, `button-gpio` or `led-gpio` gives -ENODEV with nothing acquired |
| `DtButton.ProbeOwnership` | 10_button_with_dt/dt_button.c:134-155 | a failed probe holds no GPIO and no timer, the button being put back when the LED is refused; the timer is armed exactly on success, with both held |
| `DtButton.ProbeSucceedsIff` | 10_button_with_dt/dt_button.c:97-155 | probe returns 0 if and only if all properties are present, both string reads succeed and both GPIOs are granted |
| `DtButton.LedRefusalReported` | 10_button_with_dt/dt_button.c:143-148 | a refused LED returns the LED's error code and releases the button |
| `DtButton.Driver.constructor` | 10_button_with_dt/dt_button.c:26-32 | the initial history is all RELEASED with confirmed level PRESSED, and nothing is held |
| `DtButton.Driver.TimerCallback` | 10_button_with_dt/dt_button.c:38-56 | the history becomes `Next(old, sample)` and the LED `NextLed(old, sample, led)`; ownership is unchanged |
| `DtButton.Driver.Probe` | 10_button_with_dt/dt_button.c:87-156 | return code, held GPIOs and timer state are `ProbeSpec(env)`; on success the LED starts low |
| `DtButton.Driver.Remove` | 10_button_with_dt/dt_button.c:163-172 | both descriptors are put back and the timer is disarmed |
| `TimerButton.InitEarlyFailures` | 08_timer_with_button/timer_button.c:62-88 | a refused button request gives -EBUSY holding nothing; a failed input direction frees the button and gives -EIO; the LED steps give -EBUSY and -EIO |
| `TimerButton.InitArmsOnlyWhenOwned` | 08_timer_with_button/timer_button.c:90-96 | the timer is armed if and only if all four steps succeed, and then both lines are held |
| `TimerButton.InitLeaksButton` | 08_timer_with_button/timer_button.c:76-88 | as written, a failure at either LED step returns an error with the button line still requested |
| `TimerButton.InitSpecFixed` | 08_timer_with_button/timer_button.c:63-88 | with every failure path releasing what it requested, init succeeds exactly when all four steps succeed, and then holds both lines with the timer armed; any failure holds nothing and leaves the timer unarmed |
| `TimerButton.InitFixedReleasesAll` | 08_timer_with_button/timer_button.c:76-88 | with the rollback corrected, a failed init holds nothing, with the same return codes and the same success |
| `TimerButton.Module.constructor` | 08_timer_with_button/timer_button.c:21-29 | the initial history is all RELEASED with confirmed level PRESSED, and nothing is requested |
| `TimerButton.Module.TimerCallback` | 08_timer_with_button/timer_button.c:34-52 | the sample is read from line 17 + 512; only line 18 + 512 is written, with `NextLed`; the history becomes `Next` |
| `TimerButton.Module.InitModule` | 08_timer_with_button/timer_button.c:58-97 | return code, requested lines and timer state are `InitSpec(env)`, which reproduces the frees as written; on success the LED line is driven low |
| `TimerButton.Module.CleanupModule` | 08_timer_with_button/timer_button.c:103-109 | both lines are freed and the timer is deleted |

## Findings

| source | as written | input that shows it | evidently intended | confidence | as-written member | corrected member |
|---|---|---|---|---|---|---|
| 11_ledblink_by_mmio/hello_mmio.c:82 | `pin < 0 && pin > 31` on an unsigned pin is never true, so no pin is rejected | the write `40,1`: it reaches `gpio_pin_on(40)`, which writes GPFSEL4 and computes `1 << 40`; the write `-1,1` reaches `gpio_pin_on(0xFFFFFFFF)`, far outside the mapped window | reject pins above 31 and return the pin, as the error message (0 - 31) says | not executed; high | `HelloMmio.DecideAsWritten`, `HelloMmio.PinCheckAsWrittenAdmitsAll`, `HelloMmio.PinFortyDispatched`, `HelloMmio.NegativePinDispatched` | `HelloMmio.Decide` |
| 08_timer_with_button/timer_button.c:79 | after a failed LED request the code frees the LED line, which it never requested | button request and input direction succeed, LED request fails | free the button line, as the comment on that line says | not executed; high | `TimerButton.InitLeaksButton` | `TimerButton.InitSpecFixed`, `TimerButton.InitFixedReleasesAll` |
| 08_timer_with_button/timer_button.c:86 | after a failed LED output direction only the LED line is freed | all steps succeed except `gpio_direction_output` | free the button line too, since the module does not load and its exit never runs | not executed; medium | `TimerButton.InitLeaksButton` | `TimerButton.InitSpecFixed`, `TimerButton.InitFixedReleasesAll` |

`GpioWindow.Write` uses the corrected range test (`Decide`). This keeps
`PinOn`/`PinOff` within the window and within GPSET0/GPCLR0. For the two
rollback findings, `TimerButton.Module.InitModule` keeps the code's
behaviour, because the driver's observable resource state is what this
model is for. The corrected rollback is `InitSpecFixed`, with its property
proved in `InitFixedReleasesAll`.

## Left out

- `ioremap` / `iounmap`, `proc_create` / `proc_remove`, `lll_read` and the module init/exit of `hello_mmio.c`: kernel I/O plumbing. The mapped window is a given array of at least 11 words.
- The bytes copied by `copy_from_user`, `memset` of `data_buffer`, and `sscanf`'s libc semantics: the write handler receives what `sscanf` returned (`Scan`: count, pin, value) and whether the copy failed.
- HelloMmio.GpioWindow.PinOn: requires `pin < 32`. `1 << pin` is undefined in C beyond that, and the code only uses GPSET0/GPCLR0. PinOff is the same.
- Hardware register semantics: GPSET0/GPCLR0 are write-only and drive the pin level. The model treats the window as plain memory and does not model the electrical effect.
- Timer mechanics (`timer_setup`, `add_timer`, `mod_timer`, `jiffies`, `del_timer`, `del_timer_sync`) and the 10 ms period: a tick is a method call, and the timer is a boolean `armed`.
- The teardown order of `dt_remove` (GPIOs put before `del_timer_sync`) and of `my_cleanup_module` (lines freed before `del_timer`): a race between the callback and teardown, out of scope for a sequential model.
- DtButton.Driver.TimerCallback: samples are 0 or 1. A negative errno from `gpiod_get_value` is stored unfiltered by the code but is not modelled. TimerButton.Module.TimerCallback is the same for `gpio_get_value`.
- DtButton.Driver.Probe: requires a driver that holds nothing, as at probe time. A failed read of `my_value` is only logged, so it is not a parameter.
- TimerButton.Module.InitModule: requires a freshly loaded module holding nothing.
- TimerButton.Module.InitModule: `held` records only this module's own requests, so the free of line 530 after a refused LED request (timer_button.c:79) changes nothing in the model. The code expects that refusal to mean another consumer holds line 530, and the legacy `gpio_free` does not check who requested a line, so the real free releases the other consumer's request. The model does not capture that effect on other consumers.
- Platform driver registration (`my_init` / `my_exit` of `dt_button.c`), the match table and all logging.
- The other modules of the repository (hello world, character device stubs, GPIO IRQ, plain timer, device-tree property reads, user-space test programs): registration or library calls with no logic of their own.
