/**
 The power-controller (POWMAN) register block as the driver in deepsleep.py
 sees it: the base address, the register offsets, the command payloads, and
 the exact sequence of bus events each driver operation issues.
 */
module Powman {
  import opened Bits

  const POWMAN_BASE: nat := 0x4010_0000

  /** Upper 16 bits every protected POWMAN write must carry. */
  const PASS: nat := 0x5AFE_0000

  // Generic register offsets
  const VREG_LP_ENTRY: nat := 0x10
  const STATE: nat := 0x38
  const TIMER: nat := 0x88
  const INTE: nat := 0xE4

  // Offsets of the four 16-bit fields that load the timer
  const SET_TIME_15TO0: nat := 0x6C
  const SET_TIME_31TO16: nat := 0x68
  const SET_TIME_47TO32: nat := 0x64
  const SET_TIME_63TO48: nat := 0x60

  // Offsets of the four 16-bit fields of the alarm
  const ALARM_TIME_15TO0: nat := 0x84
  const ALARM_TIME_31TO16: nat := 0x80
  const ALARM_TIME_47TO32: nat := 0x7C
  const ALARM_TIME_63TO48: nat := 0x78

  // Offsets of the two halves of the running time
  const READ_TIME_UPPER: nat := 0x70
  const READ_TIME_LOWER: nat := 0x74

  // Offsets of the boot vector registers
  const BOOT0: nat := 0xD0
  const BOOT1: nat := 0xD4
  const BOOT2: nat := 0xD8
  const BOOT3: nat := 0xDC

  const DBG_PWRCFG: nat := 0xA4

  // Payloads the driver writes under the password
  const TIMER_STOP: Half := 0x00
  /** Run, clear and clear-alarm, written by powmanInit. */
  const TIMER_START_CLEAR: Half := 0x46
  /** Run and reset the alarm bit, written by PowmanOffForMs. */
  const TIMER_START_ALARM: Half := 0x72
  const INTE_ALARM: Half := 0x02
  const DBG_IGNORE: Half := 0x01
  const LP_ENTRY: Half := 0x0004
  /** The literal the driver writes to STATE (bits 7 to 4 set). */
  const POWER_DOWN: Half := 0x00F0

  /** Absolute bus address of a POWMAN register, `POWMAN_BASE + offset`. */
  function Reg(offset: nat): nat
  {
    POWMAN_BASE + offset
  }

  /** What the program does on the bus: a `mem32` store, or the final
      wait-for-interrupt that ends the program's run. */
  datatype Event = Store(addr: nat, value: Word) | Halt

  /** `PASS | payload`: the password lands in the upper half and the payload,
      untouched, in the lower half. */
  function Protected(payload: Half): (r: Word)
    ensures r == PASS + payload
    ensures r / TWO_16 == PASS / TWO_16 && r % TWO_16 == payload
  {
    Pow2Values();
    OrDisjoint(0x5AFE, payload, 16);
    Or(PASS, payload)
  }

  /** The upper 16 bits of v are the password. */
  predicate HasPassword(v: Word)
  {
    v / TWO_16 == PASS / TWO_16
  }

  /** The 16-bit field the hardware takes from a protected write. */
  function Payload(v: Word): Half
  {
    v % TWO_16
  }

  /** `(hi << 32) | lo`: the running time from its two 32-bit halves. */
  function Combine(hi: Word, lo: Word): (r: nat)
    ensures r < TWO_64
    ensures r / TWO_32 == hi && r % TWO_32 == lo
  {
    Pow2Values();
    OrDisjoint(hi, lo, 32);
    Or(ShiftLeft(hi, 32), lo)
  }

  /** The register contents after one event. */
  function Step(regs: map<nat, Word>, e: Event): map<nat, Word>
  {
    match e
    case Store(a, v) => regs[a := v]
    case Halt => regs
  }

  /** The register contents after a sequence of events, oldest first. */
  function Replay(regs: map<nat, Word>, events: seq<Event>): map<nat, Word>
    decreases |events|
  {
    if events == [] then regs
    else Step(Replay(regs, events[..|events| - 1]), events[|events| - 1])
  }

  /** The addresses a sequence of events stores to. */
  function Touched(events: seq<Event>): set<nat>
  {
    set i | 0 <= i < |events| && events[i].Store? :: events[i].addr
  }

  /** The value of the last store to TIMER in a sequence of events. */
  function LastTimerCommand(events: seq<Event>): Option<Word>
    decreases |events|
  {
    if events == [] then None
    else
      var e := events[|events| - 1];
      if e.Store? && e.addr == Reg(TIMER) then Some(e.value)
      else LastTimerCommand(events[..|events| - 1])
  }

  datatype Option<T> = None | Some(value: T)

  /** The four stores that write the 16-bit slices of v, least significant
      first, to the registers at offsets f0, f1, f2 and f3. */
  function FieldStores(f0: nat, f1: nat, f2: nat, f3: nat, v: int): seq<Event>
  {
    [ Store(Reg(f0), Protected(Slice(v, 0))),
      Store(Reg(f1), Protected(Slice(v, 1))),
      Store(Reg(f2), Protected(Slice(v, 2))),
      Store(Reg(f3), Protected(Slice(v, 3))) ]
  }

  function SetTimeRegs(): set<nat>
  {
    {Reg(SET_TIME_15TO0), Reg(SET_TIME_31TO16), Reg(SET_TIME_47TO32), Reg(SET_TIME_63TO48)}
  }

  function AlarmRegs(): set<nat>
  {
    {Reg(ALARM_TIME_15TO0), Reg(ALARM_TIME_31TO16), Reg(ALARM_TIME_47TO32), Reg(ALARM_TIME_63TO48)}
  }

  function BootRegs(): set<nat>
  {
    {Reg(BOOT0), Reg(BOOT1), Reg(BOOT2), Reg(BOOT3)}
  }

  /** The 64-bit time loaded into the SET_TIME fields of regs. */
  function SetTimeValue(regs: map<nat, Word>): nat
    requires SetTimeRegs() <= regs.Keys
  {
    Join(Payload(regs[Reg(SET_TIME_15TO0)]), Payload(regs[Reg(SET_TIME_31TO16)]),
         Payload(regs[Reg(SET_TIME_47TO32)]), Payload(regs[Reg(SET_TIME_63TO48)]))
  }

  /** The 64-bit time held in the ALARM_TIME fields of regs. */
  function AlarmValue(regs: map<nat, Word>): nat
    requires AlarmRegs() <= regs.Keys
  {
    Join(Payload(regs[Reg(ALARM_TIME_15TO0)]), Payload(regs[Reg(ALARM_TIME_31TO16)]),
         Payload(regs[Reg(ALARM_TIME_47TO32)]), Payload(regs[Reg(ALARM_TIME_63TO48)]))
  }

  /** All four boot vectors are present and zero. */
  predicate BootCleared(regs: map<nat, Word>)
  {
    forall b | b in BootRegs() :: b in regs && regs[b] == 0
  }

  /** The events of `powmanInit(absTimeMs)`. */
  function InitTrace(absTimeMs: int): seq<Event>
  {
    [Store(Reg(TIMER), Protected(TIMER_STOP))]
    + FieldStores(SET_TIME_15TO0, SET_TIME_31TO16, SET_TIME_47TO32, SET_TIME_63TO48, absTimeMs)
    + [Store(Reg(TIMER), Protected(TIMER_START_CLEAR)), Store(Reg(DBG_PWRCFG), Protected(DBG_IGNORE))]
  }

  /** The events of `_forceReboot()`: plain zero stores, no password. */
  function RebootTrace(): seq<Event>
  {
    [Store(Reg(BOOT0), 0), Store(Reg(BOOT1), 0), Store(Reg(BOOT2), 0), Store(Reg(BOOT3), 0)]
  }

  /** The events of `_powmanPowerOff()`, ending in the wait for interrupt. */
  function PowerOffTrace(): seq<Event>
  {
    [Store(Reg(VREG_LP_ENTRY), Protected(LP_ENTRY))]
    + RebootTrace()
    + [Store(Reg(STATE), Protected(POWER_DOWN)), Halt]
  }

  /** The events of `PowmanOffForMs` once it has computed alarmTime. */
  function OffForMsTrace(alarmTime: int): seq<Event>
  {
    [Store(Reg(INTE), Protected(INTE_ALARM)), Store(Reg(TIMER), Protected(TIMER_STOP))]
    + FieldStores(ALARM_TIME_15TO0, ALARM_TIME_31TO16, ALARM_TIME_47TO32, ALARM_TIME_63TO48, alarmTime)
    + [Store(Reg(TIMER), Protected(TIMER_START_ALARM))]
    + PowerOffTrace()
  }

  /** One pass of the read loop of `_getCurrentTime`: the upper half, the
      lower half, then the upper half again, as the hardware returned them. */
  datatype Sample = Sample(hi1: Word, lo: Word, hi2: Word)

  /** The pass at index j is the first whose two upper reads agree. */
  predicate FirstConsistent(samples: seq<Sample>, j: int)
  {
    && 0 <= j < |samples|
    && samples[j].hi1 == samples[j].hi2
    && forall k | 0 <= k < j :: samples[k].hi1 != samples[k].hi2
  }

  /** Some pass of the read loop sees two equal upper reads. */
  predicate Converges(samples: seq<Sample>)
  {
    exists j | 0 <= j < |samples| :: samples[j].hi1 == samples[j].hi2
  }

  /** The time `_getCurrentTime` returns when the hardware answers its reads
      with `samples`, or None if the loop never stops on them. */
  function SampledTime(samples: seq<Sample>): Option<nat>
    decreases |samples|
  {
    if samples == [] then None
    else if samples[0].hi1 == samples[0].hi2 then Some(Combine(samples[0].hi1, samples[0].lo))
    else SampledTime(samples[1..])
  }
}
