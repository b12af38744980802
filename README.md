# POWMAN deep-sleep driver, modelled in Dafny

`deepsleep.py` is a MicroPython driver for the RP2350's always-on power
manager (POWMAN). It does four things:

- `powmanInit(absTimeMs)` loads the 64-bit always-on timer with a
  millisecond timestamp.
- `_getCurrentTime()` reads that timer back tear-free: upper half, lower
  half, upper half again, until the two upper reads agree.
- `PowmanOffForMs(sleepingMs)` programs the alarm to "now + sleepingMs",
  enables its interrupt and restarts the timer.
- `_powmanPowerOff()` then powers the chip down: it selects the low-power
  regulator, zeroes the four boot vectors (`_forceReboot()`) so that the
  wake-up reset boots normally, switches the domains off through `STATE`
  and waits for an interrupt.

Every POWMAN register write except the boot-vector clears is
password-qualified: its upper 16 bits are `0x5AFE` and its lower 16 bits
are the payload.

The model has four modules:

- `Bits` (bits.dfy) holds Python's integer operations as the driver uses
  them on unbounded integers:
  - `>>` is floor division by a power of two;
  - `& 0xFFFF` is the remainder modulo 2^16;
  - `|` is a bit-by-bit Or on naturals;
  - a time is split into four 16-bit slices and joined back.
- `Powman` (powman.dfy) holds the register map and the payload constants.
  Its `Event` is a bus event: a `mem32` store, or the final wait for
  interrupt (`Halt`). `Replay` computes the register contents after a
  sequence of events. For each driver operation, a function gives the exact
  event sequence it issues (`InitTrace`, `RebootTrace`, `PowerOffTrace`,
  `OffForMsTrace`). `SampledTime` is a reference definition of what
  `_getCurrentTime` returns for a given sequence of hardware answers.
- `PowmanProperties` (powman_properties.dfy) proves what those sequences
  guarantee:
  - the stored fields recombine to the intended time modulo 2^64;
  - every protected store carries the password;
  - the timer is stopped whenever its fields are written;
  - only the named registers are touched;
  - the boot vectors are zero when `STATE` is written and at the final wait.
- `DeepSleep` (deepsleep.dfy) is the driver itself, written imperatively:
  - A `Machine` class holds the `mem32` register memory as a map, plus the
    record of bus events. `Store` is `mem32[addr] = value`; `Idle` is
    `machine.idle()`.
  - Each driver function is a method that issues its stores one at a time.
    It is proved to produce its operation's event sequence and the register
    contents that `Replay` gives for it.
  - `GetCurrentTime` is the read loop, with its invariants, over the
    hardware's answers given as a parameter.

## Model

| member | source | states |
|---|---|---|
| Bits.Pow2 | deepsleep.py:51-53 | arithmetic helper for the shifts: 2^n is positive, so every `>> n` is a division by a non-zero number |
| Bits.Pow2Add | deepsleep.py:51-53 | arithmetic helper: 2^(a+b) = 2^a * 2^b for all a and b |
| Bits.Pow2Values | deepsleep.py:51-53 | arithmetic helper: 2^16, 2^32 and 2^48, the scales of the three shifts, are 0x1_0000, 0x1_0000_0000 and 0x1_0000_0000_0000 |
| Bits.OrDisjoint | deepsleep.py:47 | or-ing a value below 2^n into a value shifted left by n bits adds the two, since no bit is shared (used both for `PASS \| payload` and `(hi1 << 32) \| lo`) |
| Bits.Join | deepsleep.py:49-53 | four 16-bit fields make one value below 2^64 |
| Bits.JoinSlices | deepsleep.py:49-53 | the four masked slices `v & 0xFFFF`, `(v >> 16) & 0xFFFF`, `(v >> 32) & 0xFFFF` and `(v >> 48) & 0xFFFF` of any integer, negative included, recombine to v modulo 2^64 |
| Bits.SlicesOfJoin | deepsleep.py:49-53 | slicing a joined 64-bit value gives back each of its four fields, so slicing only drops bits above 2^64 |
| Powman.Protected | deepsleep.py:8 | `PASS \| payload` equals PASS + payload: the upper half is the password 0x5AFE (what `HasPassword` tests) and the lower half is exactly the payload (what `Payload` extracts) |
| Powman.Combine | deepsleep.py:70 | `(hi << 32) \| lo` is below 2^64, its upper 32 bits are hi and its lower 32 bits are lo |
| PowmanProperties.ReplayAppend | deepsleep.py:82 | issuing two sequences one after the other has the effect of their concatenation |
| PowmanProperties.ReplayUntouched | deepsleep.py:43-111 | a register that no store in a sequence addresses keeps its presence and its value |
| PowmanProperties.ReplayFour | deepsleep.py:50-53 | four consecutive stores take effect one after the other, in program order |
| PowmanProperties.FieldStoresLoad | deepsleep.py:50-53 | the four field stores to four distinct registers leave each register holding the password-qualified slice for that register |
| PowmanProperties.RebootEffect | deepsleep.py:72-76 | _forceReboot sets BOOT0 to BOOT3 to zero and changes nothing else |
| PowmanProperties.PowerOffEffect | deepsleep.py:78-89 | _powmanPowerOff sets VREG_LP_ENTRY, then the boot vectors, then STATE; the final wait changes no register |
| PowmanProperties.InitAllProtected | deepsleep.py:46-60 | every store powmanInit issues carries the password in its upper 16 bits |
| PowmanProperties.OffForMsProtectedButBoot | deepsleep.py:96-111 | in the timed sleep, every store carries the password except the four boot-vector stores, which write a plain zero without it |
| PowmanProperties.RebootUnprotected | deepsleep.py:72-76 | _forceReboot writes plain zeros, without the password |
| PowmanProperties.InitSetsClock | deepsleep.py:49-53 | after powmanInit(absTimeMs), the four SET_TIME fields are present and recombine to absTimeMs modulo 2^64, from any starting register contents |
| PowmanProperties.InitTouchesOnly | deepsleep.py:43-60 | powmanInit stores exactly to TIMER, the four SET_TIME fields and DBG_PWRCFG; every other register, INTE included, keeps its presence and its value |
| PowmanProperties.InitOrder | deepsleep.py:46-60 | powmanInit stops the timer first, writes every SET_TIME field while the last TIMER command is the stop, starts the timer with 0x46 and writes DBG_PWRCFG last |
| PowmanProperties.CommandPersists | deepsleep.py:46-57 | a TIMER command (the stop, or a start) stays the last TIMER command across any stores to other registers |
| PowmanProperties.SampledTimeFirst | deepsleep.py:63-70 | the read loop returns for the first pass whose two upper reads agree; the result's upper 32 bits are that upper read and its lower 32 bits that pass's lower read |
| PowmanProperties.SampledTimeTerminates | deepsleep.py:64-70 | the read loop returns on a sequence of hardware answers if and only if some pass's two upper reads agree |
| PowmanProperties.RebootClears | deepsleep.py:72-76 | after _forceReboot all four boot vectors are present and zero, whatever they held before |
| PowmanProperties.PowerOffBootCleared | deepsleep.py:78-89 | at the STATE write and at the wait for interrupt, all four boot vectors are zero, whatever they held before |
| PowmanProperties.PowerOffOrder | deepsleep.py:78-89 | the low-power entry is the first store; STATE is written once, after every boot-vector store; the wait for interrupt is the last event and the only one |
| PowmanProperties.PowerOffTouchesOnly | deepsleep.py:78-89 | the power-off sequence stores exactly to VREG_LP_ENTRY, the four boot vectors and STATE |
| PowmanProperties.OffForMsSetsAlarm | deepsleep.py:102-106 | after the timed sleep, the four ALARM_TIME fields are present and recombine to the alarm time modulo 2^64 |
| PowmanProperties.OffForMsShape | deepsleep.py:93-111 | the timed sleep is 14 events: INTE, stop, the four alarm fields, start, then the power-off sequence, which writes neither TIMER nor an alarm field |
| PowmanProperties.OffForMsTouchesOnly | deepsleep.py:93-111 | the timed sleep stores exactly to INTE, TIMER, the four ALARM_TIME fields and the registers of the power-off sequence |
| PowmanProperties.OffForMsOrder | deepsleep.py:96-111 | the timed sleep enables the alarm interrupt first and stops the timer second; every alarm field is written while the timer is stopped; the timer's last command is the restart with 0x72; the power-off sequence forms the tail |
| PowmanProperties.OffForMsBootCleared | deepsleep.py:93-111 | in the timed sleep, the boot vectors are zero at the STATE write and at the final wait |
| DeepSleep.Machine.constructor | deepsleep.py:1 | the machine starts with the given register contents and an empty event record |
| DeepSleep.Machine.Store | deepsleep.py:47 | `mem32[addr] = value` updates that one register and records the store |
| DeepSleep.Machine.Idle | deepsleep.py:89 | the wait for interrupt changes no register and is recorded as the halt |
| DeepSleep.StoreTime | deepsleep.py:50-53 | the four shifted and masked stores issue exactly the field stores of the value and leave the registers as replaying them gives |
| DeepSleep.PowmanInit | deepsleep.py:43-60 | powmanInit issues exactly the init sequence; the SET_TIME fields recombine to absTimeMs modulo 2^64; TIMER ends as run + clear + clear-alarm |
| DeepSleep.GetCurrentTime | deepsleep.py:63-70 | the loop stops at the first pass whose upper reads agree; the result is built from that pass's reads and equals the reference SampledTime |
| DeepSleep.ForceReboot | deepsleep.py:72-76 | _forceReboot issues the four zero stores and leaves every boot vector present and zero |
| DeepSleep.PowmanPowerOff | deepsleep.py:78-89 | _powmanPowerOff issues the power-off sequence, leaves the boot vectors zero and STATE holding the power-down request |
| DeepSleep.PowmanOffForMs | deepsleep.py:93-111 | the read loop finishes; the timed sleep issues its sequence for sleepingMs plus the time read; the alarm fields recombine to that sum modulo 2^64; the boot vectors end zero |

## Left out

- The two `print` calls (deepsleep.py:44 and 95) are console output only and are not modelled.
- main.py, the demo that calls the driver, is not part of this model.
- `machine.idle()` (deepsleep.py:89) is modelled as a `Halt` event that ends the run. The file imports only `mem32` from `machine` (line 1), so as written the name `machine` is unbound at line 89. The model takes the evident intent, a wait for interrupt.
- Hardware behaviour after the stores is not modelled: the timer counting, the alarm firing, the domains switching off and the reset on wake. Neither is POWMAN ignoring a write that lacks the password. The model records stores and derives register contents, and proves properties of those.
- The values that `mem32` reads return are a parameter of `GetCurrentTime` and `PowmanOffForMs`, one (upper, lower, upper) triple per pass of the loop, taken as unsigned 32-bit values. How the MicroPython runtime turns a read into a Python int is not part of this model.
- DeepSleep.GetCurrentTime: requires that some triple has equal upper reads. The source loop has no bound, and on answers that never agree it does not return. `SampledTimeTerminates` states this case separately: the reference result is `None` exactly then.
- Register contents are a map from address to 32-bit word. Every value the driver stores is below 2^32, so no truncation on store is modelled.
- The driver neither validates its arguments, nor writes INTE in `powmanInit`, nor has a GPIO wake path. The model follows the code, so none of these appear.
- The comment at deepsleep.py:85 names bits 3 to 0, while the literal written is 0x00F0 (bits 7 to 4). The model uses the literal as written.
- Concurrency and interrupts arriving during the sequences are not modelled: the driver runs single-threaded with no interrupt handler.
