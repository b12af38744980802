/**
 What the event sequences of the POWMAN driver guarantee: every protected
 write carries the password, the timer is stopped while its fields change,
 the written fields recombine to the intended 64-bit time, nothing outside
 the named registers is touched, and the boot vectors are zero before the
 system is switched off.
 */
module PowmanProperties {
  import opened Bits
  import opened Powman

  // ---------------------------------------------------------------------
  // Replaying events

  lemma {:induction false} ReplayAppend(regs: map<nat, Word>, a: seq<Event>, b: seq<Event>)
    ensures Replay(regs, a + b) == Replay(Replay(regs, a), b)
    decreases |b|
  {
    if b == [] {
      assert a + b == a;
    } else {
      var b' := b[..|b| - 1];
      assert (a + b)[..|a + b| - 1] == a + b';
      assert (a + b)[|a + b| - 1] == b[|b| - 1];
      ReplayAppend(regs, a, b');
    }
  }

  /** A register that no event stores to keeps its value (or stays absent). */
  lemma {:induction false} ReplayUntouched(regs: map<nat, Word>, events: seq<Event>, x: nat)
    requires x !in Touched(events)
    ensures x in Replay(regs, events) <==> x in regs
    ensures x in regs ==> Replay(regs, events)[x] == regs[x]
    decreases |events|
  {
    if events != [] {
      var init := events[..|events| - 1];
      assert Touched(init) <= Touched(events) by {
        forall a | a in Touched(init) ensures a in Touched(events) {
          var i :| 0 <= i < |init| && init[i].Store? && init[i].addr == a;
          assert events[i] == init[i];
        }
      }
      var last := events[|events| - 1];
      assert last.Store? ==> last.addr in Touched(events);
      ReplayUntouched(regs, init, x);
    }
  }

  lemma ReplaySnoc(regs: map<nat, Word>, events: seq<Event>, e: Event)
    ensures Replay(regs, events + [e]) == Step(Replay(regs, events), e)
  {
    assert (events + [e])[..|events|] == events;
  }

  /** Replaying four events applies them one after the other. */
  lemma ReplayFour(regs: map<nat, Word>, e0: Event, e1: Event, e2: Event, e3: Event)
    ensures Replay(regs, [e0, e1, e2, e3]) == Step(Step(Step(Step(regs, e0), e1), e2), e3)
  {
    ReplaySnoc(regs, [], e0);
    assert [] + [e0] == [e0];
    ReplaySnoc(regs, [e0], e1);
    assert [e0] + [e1] == [e0, e1];
    ReplaySnoc(regs, [e0, e1], e2);
    assert [e0, e1] + [e2] == [e0, e1, e2];
    ReplaySnoc(regs, [e0, e1, e2], e3);
    assert [e0, e1, e2] + [e3] == [e0, e1, e2, e3];
  }

  /** Replaying field stores loads all four registers with the slices of v. */
  lemma FieldStoresLoad(regs: map<nat, Word>, f0: nat, f1: nat, f2: nat, f3: nat, v: int)
    requires f0 != f1 && f0 != f2 && f0 != f3 && f1 != f2 && f1 != f3 && f2 != f3
    ensures var r := Replay(regs, FieldStores(f0, f1, f2, f3, v));
      && Reg(f0) in r && r[Reg(f0)] == Protected(Slice(v, 0))
      && Reg(f1) in r && r[Reg(f1)] == Protected(Slice(v, 1))
      && Reg(f2) in r && r[Reg(f2)] == Protected(Slice(v, 2))
      && Reg(f3) in r && r[Reg(f3)] == Protected(Slice(v, 3))
  {
    var w := FieldStores(f0, f1, f2, f3, v);
    ReplayFour(regs, w[0], w[1], w[2], w[3]);
    assert w == [w[0], w[1], w[2], w[3]];
  }

  /** The field stores, with each slice written out as the driver computes it. */
  lemma FieldStoresAsShifts(f0: nat, f1: nat, f2: nat, f3: nat, v: int)
    ensures FieldStores(f0, f1, f2, f3, v) ==
      [ Store(Reg(f0), Protected(Low16(v))),
        Store(Reg(f1), Protected(Low16(ShiftRight(v, 16)))),
        Store(Reg(f2), Protected(Low16(ShiftRight(v, 32)))),
        Store(Reg(f3), Protected(Low16(ShiftRight(v, 48)))) ]
  {
  }

  /** The register contents _forceReboot leaves. */
  lemma RebootEffect(regs: map<nat, Word>)
    ensures Replay(regs, RebootTrace()) ==
      regs[Reg(BOOT0) := 0][Reg(BOOT1) := 0][Reg(BOOT2) := 0][Reg(BOOT3) := 0]
  {
    var w := RebootTrace();
    ReplayFour(regs, w[0], w[1], w[2], w[3]);
    assert w == [w[0], w[1], w[2], w[3]];
  }

  /** The register contents _powmanPowerOff leaves; the final wait changes none. */
  lemma PowerOffEffect(regs: map<nat, Word>)
    ensures Replay(regs, PowerOffTrace()) ==
      Replay(regs[Reg(VREG_LP_ENTRY) := Protected(LP_ENTRY)], RebootTrace())[Reg(STATE) := Protected(POWER_DOWN)]
  {
    var lp := Store(Reg(VREG_LP_ENTRY), Protected(LP_ENTRY));
    var state := Store(Reg(STATE), Protected(POWER_DOWN));
    assert PowerOffTrace() == (([lp] + RebootTrace()) + [state]) + [Halt];
    ReplaySnoc(regs, ([lp] + RebootTrace()) + [state], Halt);
    ReplaySnoc(regs, [lp] + RebootTrace(), state);
    ReplayAppend(regs, [lp], RebootTrace());
    ReplaySnoc(regs, [], lp);
    assert [] + [lp] == [lp];
  }

  // ---------------------------------------------------------------------
  // Password qualification

  /** Every event is a store whose upper 16 bits are the password. */
  predicate AllProtected(events: seq<Event>)
  {
    forall i | 0 <= i < |events| :: events[i].Store? && HasPassword(events[i].value)
  }

  lemma InitAllProtected(absTimeMs: int)
    ensures AllProtected(InitTrace(absTimeMs))
  {
  }

  /** In the timed sleep, every store carries the password except the four
      boot-vector stores, which write a plain zero. */
  lemma OffForMsProtectedButBoot(alarmTime: int)
    ensures var w := OffForMsTrace(alarmTime);
      forall i | 0 <= i < |w| && w[i].Store? ::
        if w[i].addr in BootRegs() then w[i].value == 0 && !HasPassword(w[i].value)
        else HasPassword(w[i].value)
  {
  }

  lemma RebootUnprotected()
    ensures forall i | 0 <= i < |RebootTrace()| ::
      RebootTrace()[i].Store? && RebootTrace()[i].value == 0 && !HasPassword(RebootTrace()[i].value)
  {
  }

  // ---------------------------------------------------------------------
  // powmanInit

  /** powmanInit loads the SET_TIME fields with absTimeMs modulo 2^64. */
  lemma InitSetsClock(regs: map<nat, Word>, absTimeMs: int)
    ensures var r := Replay(regs, InitTrace(absTimeMs));
      SetTimeRegs() <= r.Keys && SetTimeValue(r) == absTimeMs % TWO_64
  {
    var start := Store(Reg(TIMER), Protected(TIMER_START_CLEAR));
    var dbg := Store(Reg(DBG_PWRCFG), Protected(DBG_IGNORE));
    var head := [Store(Reg(TIMER), Protected(TIMER_STOP))];
    var fields := FieldStores(SET_TIME_15TO0, SET_TIME_31TO16, SET_TIME_47TO32, SET_TIME_63TO48, absTimeMs);
    assert InitTrace(absTimeMs) == ((head + fields) + [start]) + [dbg];
    ReplaySnoc(regs, (head + fields) + [start], dbg);
    ReplaySnoc(regs, head + fields, start);
    ReplayAppend(regs, head, fields);
    FieldStoresLoad(Replay(regs, head), SET_TIME_15TO0, SET_TIME_31TO16, SET_TIME_47TO32, SET_TIME_63TO48, absTimeMs);
    var r1: map<nat, Word> := Replay(regs, head + fields);
    var r: map<nat, Word> := r1[Reg(TIMER) := Protected(TIMER_START_CLEAR)][Reg(DBG_PWRCFG) := Protected(DBG_IGNORE)];
    assert Replay(regs, InitTrace(absTimeMs)) == r;
    assert Payload(r[Reg(SET_TIME_15TO0)]) == Slice(absTimeMs, 0);
    assert Payload(r[Reg(SET_TIME_31TO16)]) == Slice(absTimeMs, 1);
    assert Payload(r[Reg(SET_TIME_47TO32)]) == Slice(absTimeMs, 2);
    assert Payload(r[Reg(SET_TIME_63TO48)]) == Slice(absTimeMs, 3);
    JoinSlices(absTimeMs);
  }

  /** powmanInit stores only to TIMER, the SET_TIME fields and DBG_PWRCFG;
      every other register keeps its value. */
  lemma InitTouchesOnly(regs: map<nat, Word>, absTimeMs: int, x: nat)
    ensures Touched(InitTrace(absTimeMs)) == SetTimeRegs() + {Reg(TIMER), Reg(DBG_PWRCFG)}
    ensures x !in SetTimeRegs() + {Reg(TIMER), Reg(DBG_PWRCFG)} ==>
      (x in Replay(regs, InitTrace(absTimeMs)) <==> x in regs) &&
      (x in regs ==> Replay(regs, InitTrace(absTimeMs))[x] == regs[x])
  {
    var w := InitTrace(absTimeMs);
    assert Touched(w) == SetTimeRegs() + {Reg(TIMER), Reg(DBG_PWRCFG)} by {
      assert w[0].addr == Reg(TIMER) && w[1].addr == Reg(SET_TIME_15TO0);
      assert w[2].addr == Reg(SET_TIME_31TO16) && w[3].addr == Reg(SET_TIME_47TO32);
      assert w[4].addr == Reg(SET_TIME_63TO48) && w[6].addr == Reg(DBG_PWRCFG);
    }
    if x !in Touched(w) {
      ReplayUntouched(regs, w, x);
    }
  }

  /** The fields are written only while the last TIMER command is a stop:
      no SET_TIME or ALARM_TIME store happens while the timer runs. */
  predicate WrittenWhileStopped(events: seq<Event>, fields: set<nat>)
  {
    forall i | 0 <= i < |events| && events[i].Store? && events[i].addr in fields ::
      LastTimerCommand(events[..i]) == Some(Protected(TIMER_STOP))
  }

  /** powmanInit: the timer is stopped first, every SET_TIME field is
      written while it is stopped, the timer is then started with
      run + clear + clear-alarm, and the DBG_PWRCFG write comes last. */
  lemma InitOrder(absTimeMs: int)
    ensures var w := InitTrace(absTimeMs);
      && w[0] == Store(Reg(TIMER), Protected(TIMER_STOP))
      && WrittenWhileStopped(w, SetTimeRegs())
      && LastTimerCommand(w[..|w| - 1]) == Some(Protected(TIMER_START_CLEAR))
      && LastTimerCommand(w) == Some(Protected(TIMER_START_CLEAR))
      && w[|w| - 1] == Store(Reg(DBG_PWRCFG), Protected(DBG_IGNORE))
  {
    var w := InitTrace(absTimeMs);
    assert |w| == 7;
    forall i | 0 <= i < |w| && w[i].Store? && w[i].addr in SetTimeRegs()
      ensures LastTimerCommand(w[..i]) == Some(Protected(TIMER_STOP))
    {
      assert 1 <= i <= 4;
      CommandPersists(w, Protected(TIMER_STOP), 1, i);
    }
    assert w[..6][..5] == w[..5];
    assert w[..7] == w;
  }

  /** A TIMER command stored at index start - 1 stays the last TIMER command
      up to index end when nothing in between stores to TIMER. */
  lemma {:induction false} CommandPersists(w: seq<Event>, cmd: Word, start: nat, end: nat)
    requires 1 <= start <= end <= |w|
    requires w[start - 1] == Store(Reg(TIMER), cmd)
    requires forall k | start <= k < end :: !(w[k].Store? && w[k].addr == Reg(TIMER))
    ensures LastTimerCommand(w[..end]) == Some(cmd)
    decreases end
  {
    if end > start {
      assert w[..end][..end - 1] == w[..end - 1];
      CommandPersists(w, cmd, start, end - 1);
    } else {
      assert w[..end][end - 1] == w[start - 1];
    }
  }

  // ---------------------------------------------------------------------
  // _getCurrentTime

  /** The loop returns exactly for the first pass whose upper reads agree,
      and its value is built from that pass's upper and lower reads. */
  lemma {:induction false} SampledTimeFirst(samples: seq<Sample>, j: int)
    requires FirstConsistent(samples, j)
    ensures SampledTime(samples) == Some(Combine(samples[j].hi1, samples[j].lo))
    ensures SampledTime(samples).value / TWO_32 == samples[j].hi1 == samples[j].hi2
    ensures SampledTime(samples).value % TWO_32 == samples[j].lo
    decreases |samples|
  {
    if j > 0 {
      assert samples[0].hi1 != samples[0].hi2;
      assert FirstConsistent(samples[1..], j - 1) by {
        forall k | 0 <= k < j - 1 ensures samples[1..][k].hi1 != samples[1..][k].hi2 {
          assert samples[1..][k] == samples[k + 1];
        }
      }
      SampledTimeFirst(samples[1..], j - 1);
    }
  }

  /** The loop stops on the samples exactly when some pass converges. */
  lemma {:induction false} SampledTimeTerminates(samples: seq<Sample>)
    ensures SampledTime(samples).Some? <==> Converges(samples)
    decreases |samples|
  {
    if samples != [] && samples[0].hi1 != samples[0].hi2 {
      SampledTimeTerminates(samples[1..]);
      if Converges(samples) {
        var j :| 0 <= j < |samples| && samples[j].hi1 == samples[j].hi2;
        assert samples[1..][j - 1] == samples[j];
      }
      if Converges(samples[1..]) {
        var j :| 0 <= j < |samples[1..]| && samples[1..][j].hi1 == samples[1..][j].hi2;
        assert samples[j + 1] == samples[1..][j];
      }
    }
  }

  // ---------------------------------------------------------------------
  // _forceReboot and _powmanPowerOff

  lemma RebootClears(regs: map<nat, Word>)
    ensures BootCleared(Replay(regs, RebootTrace()))
  {
    var w := RebootTrace();
    ReplayFour(regs, w[0], w[1], w[2], w[3]);
    assert w == [w[0], w[1], w[2], w[3]];
  }

  /** The boot vectors are zero at the STATE write that powers the domains
      down and at the wait for interrupt, whatever they held before. */
  lemma PowerOffBootCleared(regs: map<nat, Word>)
    ensures var w := PowerOffTrace();
      forall i | 0 <= i < |w| && (w[i].Halt? || w[i].addr == Reg(STATE)) ::
        BootCleared(Replay(regs, w[..i]))
  {
    var w := PowerOffTrace();
    var lp := [Store(Reg(VREG_LP_ENTRY), Protected(LP_ENTRY))];
    ReplayAppend(regs, lp, RebootTrace());
    RebootClears(Replay(regs, lp));
    var r5 := Replay(regs, w[..5]);
    assert w[..5] == lp + RebootTrace();
    assert BootCleared(r5);
    assert w[..6][..5] == w[..5];
    assert BootCleared(Replay(regs, w[..6]));
    forall i | 0 <= i < |w| && (w[i].Halt? || w[i].addr == Reg(STATE))
      ensures BootCleared(Replay(regs, w[..i]))
    {
      assert i == 5 || i == 6;
    }
  }

  /** In the power-off sequence the low-power entry comes first, the STATE
      write after all four boot stores, and the wait for interrupt last. */
  lemma PowerOffOrder()
    ensures var w := PowerOffTrace();
      && w[0] == Store(Reg(VREG_LP_ENTRY), Protected(LP_ENTRY))
      && (forall i, j | 0 <= i < j < |w| && w[j].Store? && w[j].addr == Reg(STATE) ::
            w[i].Store? && w[i].addr != Reg(STATE))
      && (forall i | 0 <= i < |w| && w[i].Store? && w[i].addr in BootRegs() ::
            exists j | i < j < |w| :: w[j] == Store(Reg(STATE), Protected(POWER_DOWN)))
      && (forall i | 0 <= i < |w| :: w[i].Halt? <==> i == |w| - 1)
  {
    var w := PowerOffTrace();
    forall i | 0 <= i < |w| && w[i].Store? && w[i].addr in BootRegs()
      ensures exists j | i < j < |w| :: w[j] == Store(Reg(STATE), Protected(POWER_DOWN))
    {
      assert w[5] == Store(Reg(STATE), Protected(POWER_DOWN));
    }
  }

  /** The power-off sequence stores only to VREG_LP_ENTRY, the boot vectors
      and STATE. */
  lemma PowerOffTouchesOnly()
    ensures Touched(PowerOffTrace()) == {Reg(VREG_LP_ENTRY), Reg(STATE)} + BootRegs()
  {
    var w := PowerOffTrace();
    assert w[0].addr == Reg(VREG_LP_ENTRY) && w[5].addr == Reg(STATE);
    assert w[1].addr == Reg(BOOT0) && w[2].addr == Reg(BOOT1);
    assert w[3].addr == Reg(BOOT2) && w[4].addr == Reg(BOOT3);
  }

  // ---------------------------------------------------------------------
  // PowmanOffForMs

  /** The alarm fields recombine to the alarm time modulo 2^64. */
  lemma OffForMsSetsAlarm(regs: map<nat, Word>, alarmTime: int)
    ensures var r := Replay(regs, OffForMsTrace(alarmTime));
      AlarmRegs() <= r.Keys && AlarmValue(r) == alarmTime % TWO_64
  {
    var head := [Store(Reg(INTE), Protected(INTE_ALARM)), Store(Reg(TIMER), Protected(TIMER_STOP))];
    var fields := FieldStores(ALARM_TIME_15TO0, ALARM_TIME_31TO16, ALARM_TIME_47TO32, ALARM_TIME_63TO48, alarmTime);
    var tail := [Store(Reg(TIMER), Protected(TIMER_START_ALARM))] + PowerOffTrace();
    assert OffForMsTrace(alarmTime) == (head + fields) + tail;
    ReplayAppend(regs, head + fields, tail);
    ReplayAppend(regs, head, fields);
    var r0 := Replay(regs, head);
    FieldStoresLoad(r0, ALARM_TIME_15TO0, ALARM_TIME_31TO16, ALARM_TIME_47TO32, ALARM_TIME_63TO48, alarmTime);
    var r1: map<nat, Word> := Replay(r0, fields);
    forall x | x in AlarmRegs() ensures x in Replay(r1, tail) && Replay(r1, tail)[x] == r1[x] {
      assert x !in Touched(tail) by {
        forall i | 0 <= i < |tail| && tail[i].Store? ensures tail[i].addr != x {
          assert tail[i].addr in {Reg(TIMER), Reg(VREG_LP_ENTRY), Reg(STATE)} + BootRegs();
        }
      }
      ReplayUntouched(r1, tail, x);
    }
    JoinSlices(alarmTime);
  }

  /** Where each part of the timed-sleep sequence sits. */
  lemma OffForMsShape(alarmTime: int)
    ensures var w := OffForMsTrace(alarmTime);
      && |w| == 14
      && w[0] == Store(Reg(INTE), Protected(INTE_ALARM))
      && w[1] == Store(Reg(TIMER), Protected(TIMER_STOP))
      && (forall k | 2 <= k < 6 :: w[k].Store? && w[k].addr in AlarmRegs() && w[k].addr != Reg(TIMER))
      && w[6] == Store(Reg(TIMER), Protected(TIMER_START_ALARM))
      && w[7..] == PowerOffTrace()
      && (forall k | 7 <= k < 14 :: !(w[k].Store? && w[k].addr in AlarmRegs() + {Reg(TIMER)}))
  {
    var w := OffForMsTrace(alarmTime);
    var head := [Store(Reg(INTE), Protected(INTE_ALARM)), Store(Reg(TIMER), Protected(TIMER_STOP))];
    var fields := FieldStores(ALARM_TIME_15TO0, ALARM_TIME_31TO16, ALARM_TIME_47TO32, ALARM_TIME_63TO48, alarmTime);
    var start := [Store(Reg(TIMER), Protected(TIMER_START_ALARM))];
    var off := PowerOffTrace();
    assert w == head + fields + start + off;
    assert forall k | 2 <= k < 6 :: w[k] == fields[k - 2];
    assert forall k | 7 <= k < 14 :: w[k] == off[k - 7];
  }

  /** The timed sleep stores only to INTE, TIMER, the alarm fields and the
      registers of the power-off sequence. */
  lemma OffForMsTouchesOnly(alarmTime: int)
    ensures Touched(OffForMsTrace(alarmTime)) ==
      {Reg(INTE), Reg(TIMER)} + AlarmRegs() + Touched(PowerOffTrace())
  {
    var w := OffForMsTrace(alarmTime);
    OffForMsShape(alarmTime);
    var off := PowerOffTrace();
    assert w[2].addr == Reg(ALARM_TIME_15TO0) && w[3].addr == Reg(ALARM_TIME_31TO16);
    assert w[4].addr == Reg(ALARM_TIME_47TO32) && w[5].addr == Reg(ALARM_TIME_63TO48);
    forall a | a in Touched(off) ensures a in Touched(w) {
      var i :| 0 <= i < |off| && off[i].Store? && off[i].addr == a;
      assert w[7 + i] == off[i];
    }
    forall a | a in Touched(w) ensures a in {Reg(INTE), Reg(TIMER)} + AlarmRegs() + Touched(off) {
      var i :| 0 <= i < |w| && w[i].Store? && w[i].addr == a;
      if i >= 7 {
        assert off[i - 7] == w[i];
      }
    }
  }

  /** PowmanOffForMs: the alarm interrupt is enabled first, then the timer
      is stopped, every alarm field is written while it is stopped, the
      timer is restarted with run + reset-alarm, and the power-off sequence
      follows as the last seven events. */
  lemma OffForMsOrder(alarmTime: int)
    ensures var w := OffForMsTrace(alarmTime);
      && w[0] == Store(Reg(INTE), Protected(INTE_ALARM))
      && w[1] == Store(Reg(TIMER), Protected(TIMER_STOP))
      && WrittenWhileStopped(w, AlarmRegs())
      && LastTimerCommand(w) == Some(Protected(TIMER_START_ALARM))
      && w[|w| - |PowerOffTrace()|..] == PowerOffTrace()
  {
    var w := OffForMsTrace(alarmTime);
    OffForMsShape(alarmTime);
    forall i | 0 <= i < |w| && w[i].Store? && w[i].addr in AlarmRegs()
      ensures LastTimerCommand(w[..i]) == Some(Protected(TIMER_STOP))
    {
      assert 2 <= i <= 5;
      CommandPersists(w, Protected(TIMER_STOP), 2, i);
    }
    CommandPersists(w, Protected(TIMER_START_ALARM), 7, 14);
    assert w[..14] == w;
  }

  /** The boot vectors are zero at the STATE write and at the final wait
      of the timed sleep. */
  lemma OffForMsBootCleared(regs: map<nat, Word>, alarmTime: int)
    ensures var w := OffForMsTrace(alarmTime);
      forall i | 0 <= i < |w| && (w[i].Halt? || w[i].addr == Reg(STATE)) ::
        BootCleared(Replay(regs, w[..i]))
  {
    var w := OffForMsTrace(alarmTime);
    var pre := w[..7];
    assert w == pre + PowerOffTrace();
    PowerOffBootCleared(Replay(regs, pre));
    forall i | 0 <= i < |w| && (w[i].Halt? || w[i].addr == Reg(STATE))
      ensures BootCleared(Replay(regs, w[..i]))
    {
      assert 7 <= i;
      var k := i - 7;
      assert w[..i] == pre + PowerOffTrace()[..k];
      ReplayAppend(regs, pre, PowerOffTrace()[..k]);
      assert PowerOffTrace()[k] == w[i];
    }
  }
}
