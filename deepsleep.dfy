/**
 The driver in deepsleep.py: `powmanInit`, `_getCurrentTime`,
 `_forceReboot`, `_powmanPowerOff` and `PowmanOffForMs`, each a step-by-step
 sequence of `mem32` stores on the machine's bus.
 */
module DeepSleep {
  import opened Bits
  import opened Powman
  import opened PowmanProperties

  /** The `machine` module as the driver uses it: the `mem32` register memory
      and the record of the stores and the final wait the program issues.
      Reads are not recorded: the answers to the reads of `_getCurrentTime`
      are the `samples` parameter of `GetCurrentTime`. */
  class Machine {
    var mem32: map<nat, Word>
    var trace: seq<Event>

    constructor (initial: map<nat, Word>)
      ensures mem32 == initial && trace == []
    {
      mem32 := initial;
      trace := [];
    }

    /** `mem32[addr] = value`. */
    method Store(addr: nat, value: Word)
      modifies this
      ensures mem32 == old(mem32)[addr := value]
      ensures trace == old(trace) + [Event.Store(addr, value)]
    {
      mem32 := mem32[addr := value];
      trace := trace + [Event.Store(addr, value)];
    }

    /** `machine.idle()`: the wait for interrupt that ends the program's run;
        execution resumes only through a hardware reset. */
    method Idle()
      modifies this
      ensures mem32 == old(mem32)
      ensures trace == old(trace) + [Halt]
    {
      trace := trace + [Halt];
    }
  }

  /** The four stores `mem32[POWMAN_BASE + fk] = PASS | ((v >> 16k) & 0xFFFF)`
      that both powmanInit and PowmanOffForMs issue for a 64-bit time. */
  method StoreTime(m: Machine, f0: nat, f1: nat, f2: nat, f3: nat, v: int)
    modifies m
    ensures m.trace == old(m.trace) + FieldStores(f0, f1, f2, f3, v)
    ensures m.mem32 == Replay(old(m.mem32), FieldStores(f0, f1, f2, f3, v))
  {
    m.Store(Reg(f0), Protected(Low16(v)));
    m.Store(Reg(f1), Protected(Low16(ShiftRight(v, 16))));
    m.Store(Reg(f2), Protected(Low16(ShiftRight(v, 32))));
    m.Store(Reg(f3), Protected(Low16(ShiftRight(v, 48))));
    FieldStoresAsShifts(f0, f1, f2, f3, v);
    ghost var w := FieldStores(f0, f1, f2, f3, v);
    ReplayFour(old(m.mem32), w[0], w[1], w[2], w[3]);
    assert w == [w[0], w[1], w[2], w[3]];
  }

  /** `powmanInit(absTimeMs)`: stop the timer, load the four SET_TIME
      fields, start the timer with run + clear + clear-alarm, and tell the
      power domain to ignore an attached debugger. */
  method PowmanInit(m: Machine, absTimeMs: int)
    modifies m
    ensures m.trace == old(m.trace) + InitTrace(absTimeMs)
    ensures m.mem32 == Replay(old(m.mem32), InitTrace(absTimeMs))
    ensures SetTimeRegs() <= m.mem32.Keys && SetTimeValue(m.mem32) == absTimeMs % TWO_64
    ensures Reg(TIMER) in m.mem32 && m.mem32[Reg(TIMER)] == Protected(TIMER_START_CLEAR)
  {
    ghost var r0 := m.mem32;
    m.Store(Reg(TIMER), Protected(TIMER_STOP));
    ghost var r1 := m.mem32;

    StoreTime(m, SET_TIME_15TO0, SET_TIME_31TO16, SET_TIME_47TO32, SET_TIME_63TO48, absTimeMs);
    ghost var r2 := m.mem32;

    m.Store(Reg(TIMER), Protected(TIMER_START_CLEAR));

    m.Store(Reg(DBG_PWRCFG), Protected(DBG_IGNORE));

    ghost var head := [Event.Store(Reg(TIMER), Protected(TIMER_STOP))];
    ghost var fields := FieldStores(SET_TIME_15TO0, SET_TIME_31TO16, SET_TIME_47TO32, SET_TIME_63TO48, absTimeMs);
    ghost var start := Event.Store(Reg(TIMER), Protected(TIMER_START_CLEAR));
    ghost var dbg := Event.Store(Reg(DBG_PWRCFG), Protected(DBG_IGNORE));
    assert InitTrace(absTimeMs) == ((head + fields) + [start]) + [dbg];
    ReplaySnoc(r0, (head + fields) + [start], dbg);
    ReplaySnoc(r0, head + fields, start);
    ReplayAppend(r0, head, fields);
    ReplaySnoc(r0, [], head[0]);
    assert [] + [head[0]] == head;
    InitSetsClock(r0, absTimeMs);
  }

  /** `_getCurrentTime()`: read the upper half, the lower half and the upper
      half again until the two upper reads agree, then return
      `(hi1 << 32) | lo`. The hardware's answers are `samples`, one entry per
      pass; `passes` is how many passes the loop made. */
  method GetCurrentTime(samples: seq<Sample>) returns (t: nat, passes: nat)
    requires Converges(samples)
    ensures 1 <= passes <= |samples| && FirstConsistent(samples, passes - 1)
    ensures t / TWO_32 == samples[passes - 1].hi1 == samples[passes - 1].hi2
    ensures t % TWO_32 == samples[passes - 1].lo
    ensures SampledTime(samples) == Some(t)
  {
    var i := 0;
    // `while True: ... if hi1 == hi2: return`, with the exit test as guard
    while samples[i].hi1 != samples[i].hi2
      invariant 0 <= i < |samples|
      invariant forall k | 0 <= k < i :: samples[k].hi1 != samples[k].hi2
      invariant exists j | i <= j < |samples| :: samples[j].hi1 == samples[j].hi2
      decreases |samples| - i
    {
      i := i + 1;
    }
    var hi1, lo, hi2 := samples[i].hi1, samples[i].lo, samples[i].hi2;
    t := Combine(hi1, lo);
    passes := i + 1;
    SampledTimeFirst(samples, i);
  }

  /** `_forceReboot()`: zero the four boot vectors with plain stores, so that
      the wake-up reset takes the normal boot path. */
  method ForceReboot(m: Machine)
    modifies m
    ensures m.trace == old(m.trace) + RebootTrace()
    ensures m.mem32 == Replay(old(m.mem32), RebootTrace())
    ensures BootCleared(m.mem32)
  {
    m.Store(Reg(BOOT0), 0);
    m.Store(Reg(BOOT1), 0);
    m.Store(Reg(BOOT2), 0);
    m.Store(Reg(BOOT3), 0);
    RebootEffect(old(m.mem32));
    RebootClears(old(m.mem32));
  }

  /** `_powmanPowerOff()`: request low-power regulator entry, clear the boot
      vectors, switch the domains off through STATE, and wait for the wake. */
  method PowmanPowerOff(m: Machine)
    modifies m
    ensures m.trace == old(m.trace) + PowerOffTrace()
    ensures m.mem32 == Replay(old(m.mem32), PowerOffTrace())
    ensures BootCleared(m.mem32)
    ensures Reg(STATE) in m.mem32 && m.mem32[Reg(STATE)] == Protected(POWER_DOWN)
  {
    m.Store(Reg(VREG_LP_ENTRY), Protected(LP_ENTRY));

    ForceReboot(m);

    m.Store(Reg(STATE), Protected(POWER_DOWN));

    m.Idle();

    PowerOffEffect(old(m.mem32));
  }

  /** `PowmanOffForMs(sleepingMs)`: compute the alarm time from the current
      time, enable the alarm interrupt, stop the timer, load the four
      ALARM_TIME fields, restart the timer with run + reset-alarm, and power
      off. The answers of the time registers are `samples`. */
  method PowmanOffForMs(m: Machine, sleepingMs: int, samples: seq<Sample>)
    requires Converges(samples)
    modifies m
    ensures SampledTime(samples).Some?
    ensures m.trace == old(m.trace) + OffForMsTrace(sleepingMs + SampledTime(samples).value)
    ensures m.mem32 == Replay(old(m.mem32), OffForMsTrace(sleepingMs + SampledTime(samples).value))
    ensures AlarmRegs() <= m.mem32.Keys
    ensures AlarmValue(m.mem32) == (sleepingMs + SampledTime(samples).value) % TWO_64
    ensures BootCleared(m.mem32)
  {
    var now, _ := GetCurrentTime(samples);
    var alarmTime := sleepingMs + now;
    ghost var r0 := m.mem32;

    m.Store(Reg(INTE), Protected(INTE_ALARM));

    m.Store(Reg(TIMER), Protected(TIMER_STOP));

    StoreTime(m, ALARM_TIME_15TO0, ALARM_TIME_31TO16, ALARM_TIME_47TO32, ALARM_TIME_63TO48, alarmTime);

    m.Store(Reg(TIMER), Protected(TIMER_START_ALARM));
    ghost var r1 := m.mem32;

    PowmanPowerOff(m);

    assert m.mem32 == Replay(r0, OffForMsTrace(alarmTime)) by {
      ghost var inte := Event.Store(Reg(INTE), Protected(INTE_ALARM));
      ghost var stop := Event.Store(Reg(TIMER), Protected(TIMER_STOP));
      ghost var fields := FieldStores(ALARM_TIME_15TO0, ALARM_TIME_31TO16, ALARM_TIME_47TO32, ALARM_TIME_63TO48, alarmTime);
      ghost var start := Event.Store(Reg(TIMER), Protected(TIMER_START_ALARM));
      ghost var pre := (([inte] + [stop]) + fields) + [start];
      assert OffForMsTrace(alarmTime) == pre + PowerOffTrace();
      ReplaySnoc(r0, ([inte] + [stop]) + fields, start);
      ReplayAppend(r0, [inte] + [stop], fields);
      ReplaySnoc(r0, [inte], stop);
      ReplaySnoc(r0, [], inte);
      assert [] + [inte] == [inte];
      ReplayAppend(r0, pre, PowerOffTrace());
    }
    assert AlarmRegs() <= m.mem32.Keys && AlarmValue(m.mem32) == alarmTime % TWO_64 by {
      OffForMsSetsAlarm(r0, alarmTime);
    }
  }
}
