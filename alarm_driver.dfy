/**
 * The bus side of the alarm, common to the two Micro Crystal RTC
 * revisions: `alarm_set_time` (disarm, choose weekday or date, write the
 * three alarm registers, arm), `alarm_get_time` and `alarm_is_pending`.
 * As in the calendar driver, the scripts take the bytes they write as
 * parameters; the codec of the `Alarm` module computes those bytes.
 */
module AlarmDriver {
  import opened Common
  import opened Bus
  import opened Calendar
  import opened Alarm

  // ------------------------------------------------------ alarm_set_time

  /** AIE and AF to 0: the alarm interrupt is off and its flag cleared. */
  function DisarmScript(): Script
  {
    Then(Access(Update(CONTROL, ALARM_BIT, DISABLE_ALARM), true),
    Then(Access(Update(FLAG, ALARM_BIT, DISABLE_ALARM), true),
    Return(0)))
  }

  /** Disarm, set WADA to `wada`, write the alarm registers, set AIE. */
  function ArmScript(wada: byte, bytes: seq<byte>): Script
  {
    Then(Access(Update(CONTROL, ALARM_BIT, DISABLE_ALARM), true),
    Then(Access(Update(FLAG, ALARM_BIT, DISABLE_ALARM), true),
    Then(Access(Update(EXTENSION, WADA_BIT, wada), true),
    Then(Access(Write(ALARM_MINUTES, bytes), true),
    Then(Access(Update(CONTROL, ALARM_BIT, ENABLE_ALARM), true),
    Return(0))))))
  }

  /** The transactions of `alarm_set_time` in revision `rev`: none when the
   *  pointer is NULL with fields requested or when the alarm time is
   *  invalid; the disarm alone for an empty mask; else the arm with the
   *  WADA value and the bytes that revision computes. */
  function AlarmSetScript(rev: Revision, mask: FieldMask, tp: Option<RtcTime>): Script
    requires tp.Some? || mask != 0
  {
    if tp.None? && mask > 0 then Return(-EINVAL)
    else if !AlarmTimeValid(tp.value, mask) then Return(-EINVAL)
    else if mask == 0 then DisarmScript()
    else ArmScript(WadaOf(rev, mask), AlarmBytesOf(rev, tp.value, mask))
  }

  /** `alarm_set_time`. The time is dereferenced even for an empty mask, so
   *  a NULL pointer is only accepted with fields requested. `Current` and
   *  `Earlier` are the two revisions as written, with their `&&` tests;
   *  `Intended` has `&` in both. */
  method AlarmSetTime(bus: RegisterFile, rev: Revision, mask: FieldMask, tp: Option<RtcTime>) returns (err: int)
    requires bus.Valid() && (tp.Some? || mask != 0)
    modifies bus
    ensures bus.Valid()
    ensures Outcome(err, bus.State()) == Run(AlarmSetScript(rev, mask, tp), old(bus.State()))
    ensures tp.None? || !AlarmTimeValid(tp.value, mask) ==> err == -EINVAL && bus.State() == old(bus.State())
  {
    if tp.None? && mask > 0 {
      return -EINVAL;
    }
    if !AlarmTimeValid(tp.value, mask) {
      return -EINVAL;
    }
    if mask == 0 {
      err := Disarm(bus);
      return;
    }
    var wada := ChooseWada(rev, mask);
    var regs := AlarmRegisters(rev, tp.value, mask);
    err := Arm(bus, wada, regs);
  }

  /** "Set WADA to 0 or 1": the date alarm when the revision's test on the
   *  mask holds. */
  method ChooseWada(rev: Revision, mask: FieldMask) returns (wada: byte)
    ensures wada == WadaOf(rev, mask)
    ensures wada == MONTHDAY_ALARM || wada == WEEKDAY_ALARM
  {
    wada := WEEKDAY_ALARM;
    if rev == Intended && mask & MASK_MONTHDAY != 0 {
      wada := MONTHDAY_ALARM;
    } else if rev != Intended && mask != 0 && MASK_MONTHDAY != 0 {
      // `mask && RTC_ALARM_TIME_MASK_MONTHDAY`
      wada := MONTHDAY_ALARM;
    }
  }

  /** The three alarm registers, filled field by field: each enabled field
   *  with bit 7 clear and its value, each other one with bit 7 set. */
  method AlarmRegisters(rev: Revision, t: RtcTime, mask: FieldMask) returns (regs: seq<byte>)
    ensures regs == AlarmBytesOf(rev, t, mask)
  {
    var r0, r1, r2;
    if mask & MASK_MINUTE != 0 {
      r0 := ALARM_ON | Field(t.min, MINUTES_BITS);
    } else {
      r0 := ALARM_OFF;
    }
    if mask & MASK_HOUR != 0 {
      r1 := ALARM_ON | Field(t.hour, HOURS_BITS);
    } else {
      r1 := ALARM_OFF;
    }
    if mask & MASK_WEEKDAY != 0 {
      r2 := ALARM_ON | (OneHot(t.wday) & WEEKDAY_BITS);
    } else if rev != Earlier && mask & MASK_MONTHDAY != 0 {
      r2 := ALARM_ON | Field(t.mday, DATE_BITS);
    } else if rev == Earlier && mask != 0 && MASK_MONTHDAY != 0 {
      // `mask && RTC_ALARM_TIME_MASK_MONTHDAY`
      r2 := ALARM_ON | Field(t.mday, DATE_BITS);
    } else {
      r2 := ALARM_OFF;
    }
    assert r0 == MinuteByte(t, mask) && r1 == HourByte(t, mask);
    assert r2 == if rev == Earlier then DayByteAsWritten(t, mask) else DayByte(t, mask);
    regs := [r0, r1, r2];
  }

  /** The bus part of removing the alarm. */
  method Disarm(bus: RegisterFile) returns (err: int)
    requires bus.Valid()
    modifies bus
    ensures bus.Valid()
    ensures Outcome(err, bus.State()) == Run(DisarmScript(), old(bus.State()))
  {
    ghost var s1 := Then(Access(Update(FLAG, ALARM_BIT, DISABLE_ALARM), true), Return(0));
    err := bus.UpdateByte(CONTROL, ALARM_BIT, DISABLE_ALARM);
    if err < 0 {
      return;
    }
    ghost var w1 := bus.State();
    err := bus.UpdateByte(FLAG, ALARM_BIT, DISABLE_ALARM);
    assert Run(s1, w1) == Outcome(err, bus.State());
  }

  /** The bus part of setting an alarm. */
  method Arm(bus: RegisterFile, wada: byte, bytes: seq<byte>) returns (err: int)
    requires bus.Valid()
    modifies bus
    ensures bus.Valid()
    ensures Outcome(err, bus.State()) == Run(ArmScript(wada, bytes), old(bus.State()))
  {
    ghost var s4 := Then(Access(Update(CONTROL, ALARM_BIT, ENABLE_ALARM), true), Return(0));
    ghost var s3 := Then(Access(Write(ALARM_MINUTES, bytes), true), s4);
    ghost var s2 := Then(Access(Update(EXTENSION, WADA_BIT, wada), true), s3);
    ghost var s1 := Then(Access(Update(FLAG, ALARM_BIT, DISABLE_ALARM), true), s2);
    err := bus.UpdateByte(CONTROL, ALARM_BIT, DISABLE_ALARM);
    if err < 0 {
      return;
    }
    ghost var w1 := bus.State();
    err := bus.UpdateByte(FLAG, ALARM_BIT, DISABLE_ALARM);
    if err < 0 {
      return;
    }
    assert Run(s1, w1) == Run(s2, bus.State());
    ghost var w2 := bus.State();
    err := bus.UpdateByte(EXTENSION, WADA_BIT, wada);
    if err < 0 {
      return;
    }
    assert Run(s2, w2) == Run(s3, bus.State());
    ghost var w3 := bus.State();
    err := bus.BurstWrite(ALARM_MINUTES, bytes);
    if err < 0 {
      return;
    }
    assert Run(s3, w3) == Run(s4, bus.State());
    ghost var w4 := bus.State();
    err := bus.UpdateByte(CONTROL, ALARM_BIT, ENABLE_ALARM);
    assert Run(s4, w4) == Outcome(err, bus.State());
  }

  /** Clearing a bit with a masked write keeps every other bit. */
  lemma ClearBit(b: byte, bit: byte)
    ensures Masked(b, bit, 0) == b & !bit
  {
  }

  /** On a bus that serves both transactions, the disarm clears AIE and AF
   *  and changes nothing else. */
  lemma DisarmClean(c: Chip)
    requires Good(c) && Clean(c, 2)
    ensures Run(DisarmScript(), c).err == 0
    ensures Run(DisarmScript(), c).chip.regs
         == c.regs[CONTROL := c.regs[CONTROL] & !ALARM_BIT][FLAG := c.regs[FLAG] & !ALARM_BIT]
  {
    var s1 := Then(Access(Update(FLAG, ALARM_BIT, DISABLE_ALARM), true), Return(0));
    assert Accesses(s1) == 1;
    assert Accesses(DisarmScript()) == 2;
    RunClean(DisarmScript(), c);
    ServeUpdate(CONTROL, ALARM_BIT, DISABLE_ALARM, true, s1, c);
    ClearBit(c.regs[CONTROL], ALARM_BIT);
    ClearBit(c.regs[FLAG], ALARM_BIT);
  }

  /** The registers after a served arm. */
  function ArmedRegs(regs: seq<byte>, wada: byte, bytes: seq<byte>): seq<byte>
    requires |regs| == REG_COUNT && |bytes| == 3
  {
    regs[..ALARM_MINUTES] + bytes +
    [regs[TIMER_COUNTER_0], regs[TIMER_COUNTER_1],
     Masked(regs[EXTENSION], WADA_BIT, wada),
     Masked(regs[FLAG], ALARM_BIT, DISABLE_ALARM),
     Masked(Masked(regs[CONTROL], ALARM_BIT, DISABLE_ALARM), ALARM_BIT, ENABLE_ALARM)]
  }

  /** The five register changes of the arm, in their order. */
  lemma ArmEffects(regs: seq<byte>, wada: byte, bytes: seq<byte>)
    requires |regs| == REG_COUNT && |bytes| == 3
    ensures Effect(Store(Effect(Effect(Effect(regs, Update(CONTROL, ALARM_BIT, DISABLE_ALARM)),
                                              Update(FLAG, ALARM_BIT, DISABLE_ALARM)),
                                       Update(EXTENSION, WADA_BIT, wada)),
                                ALARM_MINUTES, bytes),
                   Update(CONTROL, ALARM_BIT, ENABLE_ALARM))
         == ArmedRegs(regs, wada, bytes)
  {
  }

  /** On a bus that serves its five transactions, the arm stores the alarm
   *  bytes, the WADA value and AIE, clears AF and changes nothing else. */
  lemma ArmClean(wada: byte, bytes: seq<byte>, c: Chip)
    requires Good(c) && Clean(c, 5) && |bytes| == 3
    ensures Run(ArmScript(wada, bytes), c).err == 0
    ensures Run(ArmScript(wada, bytes), c).chip.regs == ArmedRegs(c.regs, wada, bytes)
  {
    var s4 := Then(Access(Update(CONTROL, ALARM_BIT, ENABLE_ALARM), true), Return(0));
    var s3 := Then(Access(Write(ALARM_MINUTES, bytes), true), s4);
    var s2 := Then(Access(Update(EXTENSION, WADA_BIT, wada), true), s3);
    var s1 := Then(Access(Update(FLAG, ALARM_BIT, DISABLE_ALARM), true), s2);
    var s0 := ArmScript(wada, bytes);
    assert Accesses(s4) == 1;
    assert Accesses(s2) == 3;
    assert Accesses(s0) == 5;
    assert Wf(s3);
    assert Wf(s0);
    assert Code(s4) == 0;
    assert Code(s2) == 0;
    assert Code(s0) == 0;
    RunClean(s0, c);
    ServeUpdate(CONTROL, ALARM_BIT, DISABLE_ALARM, true, s1, c);
    var c1 := c.(regs := Effect(c.regs, Update(CONTROL, ALARM_BIT, DISABLE_ALARM)), faults := Tail(c.faults),
                 trace := c.trace + [Ok(Update(CONTROL, ALARM_BIT, DISABLE_ALARM), [])]);
    ServeUpdate(FLAG, ALARM_BIT, DISABLE_ALARM, true, s2, c1);
    var c2 := c1.(regs := Effect(c1.regs, Update(FLAG, ALARM_BIT, DISABLE_ALARM)), faults := Tail(c1.faults),
                  trace := c1.trace + [Ok(Update(FLAG, ALARM_BIT, DISABLE_ALARM), [])]);
    ServeUpdate(EXTENSION, WADA_BIT, wada, true, s3, c2);
    var c3 := c2.(regs := Effect(c2.regs, Update(EXTENSION, WADA_BIT, wada)), faults := Tail(c2.faults),
                  trace := c2.trace + [Ok(Update(EXTENSION, WADA_BIT, wada), [])]);
    ServeWrite(ALARM_MINUTES, bytes, true, s4, c3);
    var c4 := c3.(regs := Store(c3.regs, ALARM_MINUTES, bytes), faults := Tail(c3.faults),
                  trace := c3.trace + [Ok(Write(ALARM_MINUTES, bytes), [])]);
    ServeUpdate(CONTROL, ALARM_BIT, ENABLE_ALARM, true, Return(0), c4);
    ArmEffects(c.regs, wada, bytes);
  }

  /** With an empty mask and a bus that does not fail, `alarm_set_time`
   *  only clears AIE and AF, in every revision. */
  lemma RemoveAlarmClean(rev: Revision, t: RtcTime, c: Chip)
    requires Good(c) && Clean(c, 2) && AlarmTimeValid(t, 0)
    ensures Run(AlarmSetScript(rev, 0, Some(t)), c).err == 0
    ensures Run(AlarmSetScript(rev, 0, Some(t)), c).chip.regs
         == c.regs[CONTROL := c.regs[CONTROL] & !ALARM_BIT][FLAG := c.regs[FLAG] & !ALARM_BIT]
  {
    DisarmClean(c);
  }

  /** The alarm register bytes, WADA and AIE after a served `alarm_set_time`
   *  of a valid nonzero alarm, in every revision. */
  lemma SetAlarmClean(rev: Revision, t: RtcTime, mask: FieldMask, c: Chip)
    requires Good(c) && Clean(c, 5) && AlarmTimeValid(t, mask) && mask != 0
    ensures Run(AlarmSetScript(rev, mask, Some(t)), c).err == 0
    ensures var regs := Run(AlarmSetScript(rev, mask, Some(t)), c).chip.regs;
            regs[ALARM_MINUTES..ALARM_MINUTES + 3] == AlarmBytesOf(rev, t, mask) &&
            regs[EXTENSION] == Masked(c.regs[EXTENSION], WADA_BIT, WadaOf(rev, mask)) &&
            regs[CONTROL] & ALARM_BIT == ALARM_BIT && regs[FLAG] & ALARM_BIT == 0
  {
    var bytes := AlarmBytesOf(rev, t, mask);
    ArmClean(WadaOf(rev, mask), bytes, c);
    var regs := ArmedRegs(c.regs, WadaOf(rev, mask), bytes);
    assert regs[ALARM_MINUTES..ALARM_MINUTES + 3] == bytes;
    MaskedBits(Masked(c.regs[CONTROL], ALARM_BIT, DISABLE_ALARM), ALARM_BIT, ENABLE_ALARM);
    MaskedBits(c.regs[FLAG], ALARM_BIT, DISABLE_ALARM);
  }

  /** As written, both revisions leave the date alarm selected in WADA after
   *  setting any valid nonzero alarm on a bus that does not fail. */
  lemma SetAlarmAsWrittenSelectsDate(rev: Revision, t: RtcTime, mask: FieldMask, c: Chip)
    requires rev != Intended
    requires Good(c) && Clean(c, 5) && AlarmTimeValid(t, mask) && mask != 0
    ensures Run(AlarmSetScript(rev, mask, Some(t)), c).err == 0
    ensures Run(AlarmSetScript(rev, mask, Some(t)), c).chip.regs[EXTENSION] & WADA_BIT == MONTHDAY_ALARM
  {
    SetAlarmClean(rev, t, mask, c);
    AsWrittenWadaIsDate(rev, mask);
    MaskedBits(c.regs[EXTENSION], WADA_BIT, MONTHDAY_ALARM);
  }

  /** Setting a valid alarm with the intended tests on a bus that does not
   *  fail and reading it back gives the requested supported fields with
   *  their values, with the alarm interrupt enabled and its flag clear. */
  lemma SetAlarmThenGet(t: RtcTime, mask: FieldMask, c: Chip, prior: RtcTime)
    requires Good(c) && Clean(c, 5) && AlarmTimeValid(t, mask) && mask != 0
    ensures Run(AlarmSetScript(Intended, mask, Some(t)), c).err == 0
    ensures var regs := Run(AlarmSetScript(Intended, mask, Some(t)), c).chip.regs;
            DecodeAlarm(regs[ALARM_MINUTES..ALARM_MINUTES + 3], regs[EXTENSION], prior)
              == AlarmSetting(mask & SUPPORTED, Reported(t, mask, prior)) &&
            regs[CONTROL] & ALARM_BIT == ALARM_BIT && regs[FLAG] & ALARM_BIT == 0
  {
    SetAlarmClean(Intended, t, mask, c);
    AlarmRoundTrip(t, mask, c.regs[EXTENSION], prior);
  }

  /** The current revision as written, set and read back on a bus that does
   *  not fail: a weekday alarm reads back as a date alarm; every other
   *  valid alarm reads back as requested. */
  lemma SetAlarmAsWrittenThenGet(t: RtcTime, mask: FieldMask, c: Chip, prior: RtcTime)
    requires Good(c) && Clean(c, 5) && AlarmTimeValid(t, mask) && mask != 0
    ensures Run(AlarmSetScript(Current, mask, Some(t)), c).err == 0
    ensures var regs := Run(AlarmSetScript(Current, mask, Some(t)), c).chip.regs;
            var s := DecodeAlarm(regs[ALARM_MINUTES..ALARM_MINUTES + 3], regs[EXTENSION], prior);
            if Has(mask, MASK_WEEKDAY) then
              Has(s.mask, MASK_MONTHDAY) && !Has(s.mask, MASK_WEEKDAY) &&
              s.time == Reported(t, mask & !MASK_WEEKDAY, prior).(mday := Bcd2Bin(DayByte(t, mask) & DATE_BITS) as int)
            else
              s == AlarmSetting(mask & SUPPORTED, Reported(t, mask, prior))
  {
    SetAlarmClean(Current, t, mask, c);
    AsWrittenRoundTrip(t, mask, c.regs[EXTENSION], prior);
  }

  // ------------------------------------------------------ alarm_get_time

  /** The transactions of `alarm_get_time`, given the weekday/date alarm
   *  register: the extension register is read only when that register is
   *  enabled. */
  function GetAlarmScript(tp: Option<RtcTime>, day: byte): Script
  {
    if tp.None? then Return(-EINVAL)
    else Then(Access(Read(ALARM_MINUTES, 3), true),
           if Enabled(day) then Then(Access(Read(EXTENSION, 1), true), Return(0)) else Return(0))
  }

  /** `alarm_get_time`. `mask0` is the caller's mask, which a NULL time
   *  leaves as it was; otherwise the mask is cleared before the first read.
   *  When the extension read fails, the minute and hour fields have already
   *  been reported. */
  method AlarmGetTime(bus: RegisterFile, mask0: FieldMask, tp: Option<RtcTime>)
    returns (err: int, mask: FieldMask, out: Option<RtcTime>)
    requires bus.Valid()
    modifies bus
    ensures bus.Valid()
    ensures Outcome(err, bus.State()) == Run(GetAlarmScript(tp, old(bus.regs[ALARM_MINUTES + 2])), old(bus.State()))
    ensures tp.None? ==> err == -EINVAL && mask == mask0 && out == tp && bus.State() == old(bus.State())
    ensures tp.Some? && err == 0 ==>
      out.Some? && AlarmSetting(mask, out.value)
        == DecodeAlarm(old(bus.regs[ALARM_MINUTES..ALARM_MINUTES + 3]), old(bus.regs[EXTENSION]), tp.value)
    ensures tp.Some? && err < 0 && Head(old(bus.faults)) < 0 ==> mask == 0 && out == tp
    ensures tp.Some? && err < 0 && Head(old(bus.faults)) >= 0 ==>
      out.Some? && AlarmSetting(mask, out.value) == DecodeTimes(old(bus.regs[ALARM_MINUTES..ALARM_MINUTES + 3]), tp.value)
  {
    if tp.None? {
      return -EINVAL, mask0, tp;
    }
    ghost var c0 := bus.State();
    ghost var day := c0.regs[ALARM_MINUTES + 2];
    mask := 0;
    out := tp;
    ReadPlain(c0, ALARM_MINUTES, 3);
    var regs;
    err, regs := bus.BurstRead(ALARM_MINUTES, 3);
    if err < 0 {
      return;
    }
    ghost var c1 := bus.State();
    assert c1.regs == c0.regs;
    assert regs[2] == day;
    var t;
    mask, t := DecodeAlarmTimes(regs, tp.value);
    out := Some(t);
    if regs[2] & ALARM_OFF == ALARM_ON {
      ReadPlain(c1, EXTENSION, 1);
      var wada;
      err, wada := bus.ReadByte(EXTENSION);
      assert Run(GetAlarmScript(tp, day), c0) == Run(Then(Access(Read(EXTENSION, 1), true), Return(0)), c1);
      StepLast(c1, Read(EXTENSION, 1));
      if err < 0 {
        return;
      }
      mask, t := DecodeAlarmDay(regs[2], wada, mask, t);
      out := Some(t);
    } else {
      assert Run(GetAlarmScript(tp, day), c0) == Run(Return(0), c1);
    }
  }

  /** The minute and hour part of `alarm_get_time`, field by field. */
  method DecodeAlarmTimes(regs: seq<byte>, prior: RtcTime) returns (mask: FieldMask, t: RtcTime)
    requires |regs| == 3
    ensures AlarmSetting(mask, t) == DecodeTimes(regs, prior)
  {
    mask, t := 0, prior;
    if regs[0] & ALARM_OFF == ALARM_ON {
      mask := mask | MASK_MINUTE;
      t := t.(min := Bcd2Bin(regs[0] & MINUTES_BITS) as int);
    }
    if regs[1] & ALARM_OFF == ALARM_ON {
      mask := mask | MASK_HOUR;
      t := t.(hour := Bcd2Bin(regs[1] & HOURS_BITS) as int);
    }
  }

  /** The weekday/date part of `alarm_get_time`, once WADA has been read. */
  method DecodeAlarmDay(day: byte, wada: byte, mask0: FieldMask, t0: RtcTime) returns (mask: FieldMask, t: RtcTime)
    ensures AlarmSetting(mask, t) == DecodeDay(day, wada, AlarmSetting(mask0, t0))
  {
    if wada & WADA_BIT == WEEKDAY_ALARM {
      mask := mask0 | MASK_WEEKDAY;
      t := t0.(wday := Log2(day & WEEKDAY_BITS));
    } else {
      mask := mask0 | MASK_MONTHDAY;
      t := t0.(mday := Bcd2Bin(day & DATE_BITS) as int);
    }
  }

  // ---------------------------------------------------- alarm_is_pending

  /** The transactions of `alarm_is_pending`, given whether AF is set:
   *  read the flag register and, when AF is set, write `clear` into AF and
   *  return 1. */
  function PendingScript(pending: bool, clear: byte): Script
  {
    Then(Access(Read(FLAG, 1), true),
      if pending then Then(Access(Update(FLAG, ALARM_BIT, clear), true), Return(1)) else Return(0))
  }

  /** AF is set in the flag byte. */
  predicate AlarmFlag(flag: byte)
  {
    flag & ALARM_BIT != 0
  }

  /** `alarm_is_pending` of the current revision: AF is cleared when set. */
  method AlarmIsPending(bus: RegisterFile) returns (result: int)
    requires bus.Valid()
    modifies bus
    ensures bus.Valid()
    ensures Outcome(result, bus.State()) == Run(PendingScript(AlarmFlag(old(bus.regs[FLAG])), DISABLE_ALARM), old(bus.State()))
  {
    ghost var c0 := bus.State();
    ReadPlain(c0, FLAG, 1);
    var err, reg := bus.ReadByte(FLAG);
    if err < 0 {
      return err;
    }
    if reg & ALARM_BIT != 0 {
      ghost var c1 := bus.State();
      err := bus.UpdateByte(FLAG, ALARM_BIT, DISABLE_ALARM);
      if err < 0 {
        return err;
      }
      assert Run(Then(Access(Update(FLAG, ALARM_BIT, DISABLE_ALARM), true), Return(1)), c1) == Outcome(1, bus.State());
      return 1;
    }
    return 0;
  }

  /** On a bus that does not fail, `alarm_is_pending` reports AF and clears
   *  it when set; otherwise it writes nothing. */
  lemma PendingClean(c: Chip)
    requires Good(c) && Clean(c, 2)
    ensures Run(PendingScript(AlarmFlag(c.regs[FLAG]), DISABLE_ALARM), c).err
         == if AlarmFlag(c.regs[FLAG]) then 1 else 0
    ensures Run(PendingScript(AlarmFlag(c.regs[FLAG]), DISABLE_ALARM), c).chip.regs
         == if AlarmFlag(c.regs[FLAG]) then c.regs[FLAG := c.regs[FLAG] & !ALARM_BIT] else c.regs
  {
    var s := PendingScript(AlarmFlag(c.regs[FLAG]), DISABLE_ALARM);
    ClearBit(c.regs[FLAG], ALARM_BIT);
    if AlarmFlag(c.regs[FLAG]) {
      var s1 := Then(Access(Update(FLAG, ALARM_BIT, DISABLE_ALARM), true), Return(1));
      assert Accesses(s1) == 1;
      assert Accesses(s) == 2;
      RunClean(s, c);
      ServeRead(FLAG, 1, true, s1, c);
    } else {
      assert Accesses(s) == 1;
      RunClean(s, c);
    }
  }

  /** The earlier revision writes 1 into AF, which leaves the flag register
   *  as it was: on a bus that does not fail, a pending alarm is reported
   *  and the registers are unchanged. */
  lemma PendingAsWrittenKeeps(c: Chip)
    requires Good(c) && Clean(c, 2) && AlarmFlag(c.regs[FLAG])
    ensures Run(PendingScript(true, ALARM_BIT), c).err == 1
    ensures Run(PendingScript(true, ALARM_BIT), c).chip.regs == c.regs
    ensures Run(PendingScript(true, ALARM_BIT), c).chip.faults == Tail(Tail(c.faults))
  {
    var s := PendingScript(true, ALARM_BIT);
    var s1 := Then(Access(Update(FLAG, ALARM_BIT, ALARM_BIT), true), Return(1));
    assert Accesses(s1) == 1;
    assert Accesses(s) == 2;
    RunClean(s, c);
    ServeRead(FLAG, 1, true, s1, c);
    var c1 := c.(faults := Tail(c.faults), trace := c.trace + [Ok(Read(FLAG, 1), Reply(c.regs, Read(FLAG, 1)))]);
    ServeUpdate(FLAG, ALARM_BIT, ALARM_BIT, true, Return(1), c1);
    assert Masked(c.regs[FLAG], ALARM_BIT, ALARM_BIT) == c.regs[FLAG];
    assert c.regs[FLAG := c.regs[FLAG]] == c.regs;
  }

  /** So the alarm stays pending: the next call reports it again. */
  lemma PendingAsWrittenStays(c: Chip)
    requires Good(c) && Clean(c, 4) && AlarmFlag(c.regs[FLAG])
    ensures Run(PendingScript(true, ALARM_BIT), c).err == 1
    ensures Run(PendingScript(true, ALARM_BIT), Run(PendingScript(true, ALARM_BIT), c).chip).err == 1
  {
    PendingAsWrittenKeeps(c);
    var c2 := Run(PendingScript(true, ALARM_BIT), c).chip;
    assert Clean(c2, 2) by {
      forall i | 0 <= i < 2 && i < |c2.faults|
        ensures c2.faults[i] >= 0
      {
        assert c2.faults[i] == c.faults[i + 2];
      }
    }
    PendingAsWrittenKeeps(c2);
  }
}
