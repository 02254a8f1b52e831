# Fire/gas alarm control core — Dafny model

This project models the two cycle-driven state machines at the heart of a
fire and gas alarm firmware for an mbed board.

- **The alarm engine** (`FireAlarm`, `fire_alarm.dfy`). Each cycle it takes
  the over-temperature comparison (above 38 degrees C), the gas comparison
  (above 1.0 V) and the test-button level. It sets the sticky latches
  `gasDetected` and `overTemperatureDetected` and switches the siren and
  strobe on. It then runs the deactivation step: while the siren sounds, it
  asks the code matcher about the keypad channel and, only if that does not
  match, about the PC serial channel. Either match clears both latches and
  both actuators. Finally it hands the period of the latch pair to both
  drivers: 100 ms for gas and over-temperature, 1000 ms for gas alone,
  500 ms for over-temperature alone, 0 for none.
- **The keypad code-entry gate** (`UserInterface`, `user_interface.dfy`).
  For each released key it does one of three things:
  - it counts `#` presses towards the two-press acknowledgment of an
    incorrect code;
  - it writes a digit into the fixed-length code buffer, raising
    `codeComplete` and rewinding the position on the last digit;
  - or, for keys `2`/`3`, it would show a detector status. Those keys are
    digits, so this never happens.

  The module also models the completion-flag setter, the incorrect and
  blocked setters, and the counters of the display timer machine.

Both machines are pure step functions over immutable records. `Run`
functions fold them over sequences of inputs, and lemmas about the runs
state the properties that hold over many cycles.

The code length `CODE_NUMBER_OF_KEYS` comes from `code.h`, which is not part
of this model. It is the length of the `code` sequence, and `Valid` requires
it to be positive. The system loop's time increment `SYSTEM_TIME_INCREMENT_MS`
is not part of this model either; it is the `increment` parameter.

The code is modelled as written. Two consequences follow:

- Digits keep arriving after `codeComplete` is raised and overwrite the
  submitted code from slot 0 (`DigitAfterCompletionOverwrites`).
- The `#` counter is reset only when it reaches two. A stale count of one
  lets a later incorrect code be acknowledged by a single `#`
  (`StaleHashCountAcknowledgesOnce`). So the acknowledgment does not
  always take two consecutive presses.

## Model

| member | source | states |
|---|---|---|
| FireAlarm.StrobeTime | code/modules/fire_alarm/fire_alarm.cpp:128-139 | each latch pair maps to its own period: both → 100, gas only → 1000, over-temperature only → 500, neither → 0 (constants at lines 19-21) |
| FireAlarm.StrobeTimeDeterminesLatches | code/modules/fire_alarm/fire_alarm.cpp:128-139 | two latch pairs with the same period are the same pair, so the cadence identifies the hazard combination |
| FireAlarm.ActivationUpdate | code/modules/fire_alarm/fire_alarm.cpp:82-109 | detector states equal this cycle's comparisons; each latch afterwards is its old value OR its own condition OR the test button, so it is never cleared; siren and strobe come on when any trigger holds and are never switched off |
| FireAlarm.Deactivate | code/modules/fire_alarm/fire_alarm.cpp:120-126 | both latches and both actuators are off, so no alarm is active; detector states are kept |
| FireAlarm.DeactivationUpdate | code/modules/fire_alarm/fire_alarm.cpp:111-118 | the state changes only if the siren is on and a code matched, and then it is deactivated; keypad is asked iff the siren is on, serial only when the keypad did not match, keypad first |
| FireAlarm.Update | code/modules/fire_alarm/fire_alarm.cpp:52-58 | activation runs before deactivation; a match while the siren is on after activation ends the cycle with both latches off and period 0, even with the hazard present; otherwise the activated state stands; a latch is cleared only when a code matched; siren ⇔ a latch is set (strobe following) is preserved, and then the period is non-zero exactly while the siren sounds |
| FireAlarm.Run | code/modules/fire_alarm/fire_alarm.cpp:52-58 | over any number of cycles, siren ⇔ a latch is set is preserved, starting from the all-OFF globals of lines 29-30; with no matching code, a set latch stays set |
| FireAlarm.TestPressLatchesBoth | code/modules/fire_alarm/fire_alarm.cpp:103-108 | one cycle of test button latches both hazards; with no code they stay latched, siren and strobe on, however long the run |
| FireAlarm.SustainedOverTemperature | code/modules/fire_alarm/fire_alarm.cpp:87-100 | cycles of over-temperature only, with no gas latched and no code, end with only the over-temperature latch set, siren and strobe on, period 500 |
| FireAlarm.OverTemperatureFromInit | code/modules/fire_alarm/fire_alarm.cpp:29-32 | from power-up, any non-empty run of over-temperature-only cycles with no code ends with the over-temperature latch alone, siren on, period 500 |
| UserInterface.Init | code/modules/user_interface/user_interface.cpp:31-44 | power-up state: zeroed buffer of the code length, position 0, every flag and counter cleared, code prompt shown (line 188) |
| UserInterface.CodeCompleteWrite | code/modules/user_interface/user_interface.cpp:100-108 | write(true) only raises the flag; write(false) clears it, zeroes the position and every buffer slot; nothing else moves |
| UserInterface.IncorrectCodeStateWrite | code/modules/user_interface/user_interface.cpp:80-83 | sets the incorrect flag and changes nothing else |
| UserInterface.SystemBlockedStateWrite | code/modules/user_interface/user_interface.cpp:90-93 | sets the blocked flag and changes nothing else |
| UserInterface.KeypadUpdate | code/modules/user_interface/user_interface.cpp:112-179 | the position stays inside the buffer; '\0' changes nothing; under an incorrect code a non-'#' key changes nothing; a '#' from count 0 only moves the counter, from count 1 clears the buffer, position, counter and both flags; a digit is stored at the position, which advances, or on the last slot raises the completion flag and rewinds to 0; other keys change nothing; the keypad never raises the incorrect flag or the status display |
| UserInterface.DisplayUpdate | code/modules/user_interface/user_interface.cpp:192-256 | between refreshes only the accumulator moves; a refresh zeroes it, adds 1000 to the prompt counter and retires the prompt iff its counter had reached 5000; a status display whose counter reaches 2000 is cleared with its counter reset; the prompt and status display are never re-raised; code-entry state is untouched; timer invariant preserved |
| UserInterface.Update | code/modules/user_interface/user_interface.cpp:67-73 | keypad then display; the gate invariant and the reachable-state invariant are preserved |
| UserInterface.Run | code/modules/user_interface/user_interface.cpp:67-108 | any sequence of updates and setter calls preserves the gate invariant and the reachable-state invariant |
| UserInterface.ReachableStatesConsistent | code/modules/user_interface/user_interface.cpp:161-176 | on every run from power-up the status display is never active, the position stays below the code length, and the prompt is shown iff its counter is at most 5000 |
| UserInterface.EnterKeys | code/modules/user_interface/user_interface.cpp:139-147 | a sequence of keys keeps the position inside the buffer and never raises the incorrect flag |
| UserInterface.DigitsFillCode | code/modules/user_interface/user_interface.cpp:139-144 | digits that do not fill the buffer are written in order from the position, which advances by their number; the completion flag is unchanged |
| UserInterface.DigitsCompleteCode | code/modules/user_interface/user_interface.cpp:139-147 | the digits that fill the buffer end with it holding them after the earlier ones, the flag raised and the position 0 |
| UserInterface.CodeCompletesOnNthDigit | code/modules/user_interface/user_interface.cpp:139-147 | from power-up, N digits raise the flag on exactly the N-th, leaving the buffer equal to the digits and the position 0 |
| UserInterface.TwoHashesAcknowledge | code/modules/user_interface/user_interface.cpp:123-135 | under an incorrect code, a first '#' moves only the counter; the second clears buffer, position, counter, completion and incorrect flags |
| UserInterface.StaleHashCountAcknowledgesOnce | code/modules/user_interface/user_interface.cpp:114-129 | a count of one left over from an earlier incorrect code makes a single '#' acknowledge the next one |
| UserInterface.DigitAfterCompletionOverwrites | code/modules/user_interface/user_interface.cpp:139-147 | a digit while the completion flag is raised overwrites slot 0, keeps the rest and leaves the flag raised |

The read accessors (`gasDetectorStateRead`, `overTemperatureDetectorStateRead`,
`gasDetectedRead`, `overTemperatureDetectedRead`, `incorrectCodeStateRead`,
`systemBlockedStateRead`, `userInterfaceCodeCompleteRead`) are the field
selectors of `AlarmState` and `GateState`.

## Left out

- Sensor acquisition and the gas sensor module: the analog read, the
  `* 3.3` voltage conversion and the float comparisons against 38 degrees C
  and 1.0 V. They are hardware reads and floating point; the comparisons
  are the boolean `Readings` fields.
- The code matcher (`codeMatchFrom`), its consumption of a submission and
  its lockout policy: its source is not part of this model. It is the
  `MatchOracle` input, and `queried` records which channels were asked.
- Siren and strobe drivers (`sirenUpdate`, `strobeLightUpdate`,
  `sirenStateRead/Write`, `strobeLightStateWrite`): not part of this model.
  The on/off states are the `siren` and `strobe` fields, written only by the
  alarm engine; the period passed to both drivers is `Cycle.strobeTime`.
- The matrix keypad scan (`matrixKeypadUpdate`): not part of this model.
  Its released key is the `key` parameter.
- Display rendering, cursor positions, the temperature `sprintf` and the
  `printf` logging: output only. The third branch of the keypad step keeps
  its flag effects; the temperature it would show is float output.
- The LED indicator updates (`incorrectCodeIndicatorUpdate`,
  `systemBlockedIndicatorUpdate`): they only mirror flags onto outputs.
- `ThisThread::sleep_for(500)` after a completed code: a blocking delay
  with no effect on the modelled state.
- The test-button pin setup and the init calls of the sensor and actuator
  drivers in `fireAlarmInit`: hardware configuration.
- The order of the alarm update and the interface update within the system
  loop: that loop is not part of this model, so the two machines are
  modelled separately.
- UserInterface.DisplayUpdate: counters are unbounded integers. The source's
  `int` prompt counter grows by 1000 per refresh and would overflow after
  about 2^31 ms. By then the prompt flag has long been false, and nothing
  reads the counter again.
