/**
 * The alarm of the RV-8803 as the two Micro Crystal RTC revisions program
 * it: Zephyr's alarm field mask, the check a requested alarm time must
 * pass, the three alarm registers (minute, hour, weekday-or-date, each with
 * bit 7 clear when the field takes part in the comparison), the WADA bit of
 * the extension register that makes the third register a weekday or a
 * date, and the decoding of those registers back into a mask and a time.
 */
module Alarm {
  import opened Common
  import opened Calendar
  import opened Bus

  // ------------------------------------------------- Zephyr's alarm mask

  /** A `uint16_t` mask of `RTC_ALARM_TIME_MASK_*` bits. */
  type FieldMask = bv16

  const MASK_SECOND: FieldMask := 0x0001
  const MASK_MINUTE: FieldMask := 0x0002
  const MASK_HOUR: FieldMask := 0x0004
  const MASK_MONTHDAY: FieldMask := 0x0008
  const MASK_MONTH: FieldMask := 0x0010
  const MASK_YEAR: FieldMask := 0x0020
  const MASK_WEEKDAY: FieldMask := 0x0040
  const MASK_YEARDAY: FieldMask := 0x0080
  const MASK_NSEC: FieldMask := 0x0100

  /** The fields `alarm_get_supported_fields` reports. */
  const SUPPORTED: FieldMask := MASK_MINUTE | MASK_HOUR | MASK_MONTHDAY | MASK_WEEKDAY

  predicate Has(mask: FieldMask, field: FieldMask)
  {
    mask & field != 0
  }

  // ------------------------------------------------------ register bits

  /** Bit 7 of an alarm register: set, the field is left out of the
   *  comparison; clear, it takes part. */
  const ALARM_OFF: byte := 0x80
  const ALARM_ON: byte := 0x00

  /** The WADA bit of the extension register and its two values. */
  const WADA_BIT: byte := 0x40
  const WEEKDAY_ALARM: byte := 0x00
  const MONTHDAY_ALARM: byte := 0x40

  /** AIE in the control register, AF in the flag register. */
  const ALARM_BIT: byte := 0x08
  const ENABLE_ALARM: byte := 0x08
  const DISABLE_ALARM: byte := 0x00

  // ------------------------------------------------------------ validity

  /** `alarm_time_valid`: the checks in the order the driver makes them. */
  predicate AlarmTimeValid(t: RtcTime, mask: FieldMask)
  {
    if t.sec != 0 then false
    else if Has(mask, MASK_MINUTE) && (t.min < 0 || t.min > 59) then false
    else if Has(mask, MASK_HOUR) && (t.hour < 0 || t.hour > 23) then false
    else if t.mon != 0 then false
    else if Has(mask, MASK_MONTHDAY) && Has(mask, MASK_WEEKDAY) then false
    else if Has(mask, MASK_MONTHDAY) && (t.mday < 1 || t.mday > 31) then false
    else if Has(mask, MASK_WEEKDAY) && (t.wday < 0 || t.wday > 6) then false
    else true
  }

  /** The alarm check fails exactly when the seconds or the month are set,
   *  when both day fields are requested, or when a requested field is out
   *  of its range. */
  lemma AlarmTimeValidCases(t: RtcTime, mask: FieldMask)
    ensures !AlarmTimeValid(t, mask) <==>
      t.sec != 0 || t.mon != 0 ||
      (Has(mask, MASK_MONTHDAY) && Has(mask, MASK_WEEKDAY)) ||
      (Has(mask, MASK_MINUTE) && !(0 <= t.min <= 59)) ||
      (Has(mask, MASK_HOUR) && !(0 <= t.hour <= 23)) ||
      (Has(mask, MASK_MONTHDAY) && !(1 <= t.mday <= 31)) ||
      (Has(mask, MASK_WEEKDAY) && !(0 <= t.wday <= 6))
  {
  }

  // ------------------------------------------------------- alarm bytes

  /** The minute alarm register. */
  function MinuteByte(t: RtcTime, mask: FieldMask): byte
  {
    if Has(mask, MASK_MINUTE) then ALARM_ON | Field(t.min, MINUTES_BITS) else ALARM_OFF
  }

  /** The hour alarm register. */
  function HourByte(t: RtcTime, mask: FieldMask): byte
  {
    if Has(mask, MASK_HOUR) then ALARM_ON | Field(t.hour, HOURS_BITS) else ALARM_OFF
  }

  /** The weekday/date alarm register: the weekday bit when the weekday is
   *  requested, else the BCD date when the date is. */
  function DayByte(t: RtcTime, mask: FieldMask): byte
  {
    if Has(mask, MASK_WEEKDAY) then ALARM_ON | (OneHot(t.wday) & WEEKDAY_BITS)
    else if Has(mask, MASK_MONTHDAY) then ALARM_ON | Field(t.mday, DATE_BITS)
    else ALARM_OFF
  }

  /** The weekday/date register of the earlier revision as written: its
   *  date test is `mask && MONTHDAY`, true for every mask that reaches it. */
  function DayByteAsWritten(t: RtcTime, mask: FieldMask): byte
  {
    if Has(mask, MASK_WEEKDAY) then ALARM_ON | (OneHot(t.wday) & WEEKDAY_BITS)
    else if mask != 0 then ALARM_ON | Field(t.mday, DATE_BITS)
    else ALARM_OFF
  }

  /** The three bytes written from the minute alarm register on. */
  function AlarmBytes(t: RtcTime, mask: FieldMask): (regs: seq<byte>)
    ensures |regs| == 3
    ensures Has(mask, MASK_MINUTE) <==> regs[0] & ALARM_OFF == ALARM_ON
    ensures Has(mask, MASK_HOUR) <==> regs[1] & ALARM_OFF == ALARM_ON
    ensures Has(mask, MASK_WEEKDAY) || Has(mask, MASK_MONTHDAY) <==> regs[2] & ALARM_OFF == ALARM_ON
  {
    [MinuteByte(t, mask), HourByte(t, mask), DayByte(t, mask)]
  }

  /** The WADA value: date alarm when the date is requested, else weekday. */
  function Wada(mask: FieldMask): (w: byte)
    ensures w & !WADA_BIT == 0
    ensures w == MONTHDAY_ALARM <==> Has(mask, MASK_MONTHDAY)
  {
    if Has(mask, MASK_MONTHDAY) then MONTHDAY_ALARM else WEEKDAY_ALARM
  }

  /** The WADA value as both revisions compute it: the test is
   *  `mask && MONTHDAY`, so every nonzero mask selects the date alarm. */
  function WadaAsWritten(mask: FieldMask): byte
  {
    if mask != 0 then MONTHDAY_ALARM else WEEKDAY_ALARM
  }

  /** Whose alarm code is meant: the current revision as written, the
   *  earlier revision as written, or both with `&` for `&&`. */
  datatype Revision = Current | Earlier | Intended

  /** The WADA value the revision writes. */
  function WadaOf(rev: Revision, mask: FieldMask): byte
  {
    if rev == Intended then Wada(mask) else WadaAsWritten(mask)
  }

  /** The three alarm bytes the revision writes; only the earlier one
   *  differs, in its weekday/date register. */
  function AlarmBytesOf(rev: Revision, t: RtcTime, mask: FieldMask): (regs: seq<byte>)
    ensures |regs| == 3 && regs[..2] == AlarmBytes(t, mask)[..2]
    ensures rev != Earlier ==> regs == AlarmBytes(t, mask)
    ensures rev == Earlier ==> regs[2] == DayByteAsWritten(t, mask)
  {
    if rev == Earlier then [MinuteByte(t, mask), HourByte(t, mask), DayByteAsWritten(t, mask)]
    else AlarmBytes(t, mask)
  }

  // ------------------------------------------------------------ decoding

  /** A mask and the time fields `alarm_get_time` fills in. */
  datatype AlarmSetting = AlarmSetting(mask: FieldMask, time: RtcTime)

  /** The register is part of the alarm comparison. */
  predicate Enabled(b: byte)
  {
    b & ALARM_OFF == ALARM_ON
  }

  /** The minute and hour part of `alarm_get_time`: the mask starts empty
   *  and every enabled register adds its field; `prior` is the caller's
   *  time, of which only the reported fields are overwritten. */
  function DecodeTimes(regs: seq<byte>, prior: RtcTime): (s: AlarmSetting)
    requires |regs| == 3
  {
    var m1: FieldMask := if Enabled(regs[0]) then MASK_MINUTE else 0;
    var t1 := if Enabled(regs[0]) then prior.(min := Bcd2Bin(regs[0] & MINUTES_BITS) as int) else prior;
    var m2 := if Enabled(regs[1]) then m1 | MASK_HOUR else m1;
    var t2 := if Enabled(regs[1]) then t1.(hour := Bcd2Bin(regs[1] & HOURS_BITS) as int) else t1;
    AlarmSetting(m2, t2)
  }

  /** An enabled weekday/date register, once the WADA bit has been read. */
  function DecodeDay(day: byte, ext: byte, s: AlarmSetting): AlarmSetting
  {
    if ext & WADA_BIT == WEEKDAY_ALARM then
      AlarmSetting(s.mask | MASK_WEEKDAY, s.time.(wday := Log2(day & WEEKDAY_BITS)))
    else
      AlarmSetting(s.mask | MASK_MONTHDAY, s.time.(mday := Bcd2Bin(day & DATE_BITS) as int))
  }

  /** `alarm_get_time` on the three alarm registers and the extension
   *  register: a field is reported exactly when its register is enabled,
   *  the WADA bit says whether the third one is a weekday or a date, and
   *  every field not reported keeps the caller's value. */
  function DecodeAlarm(regs: seq<byte>, ext: byte, prior: RtcTime): (s: AlarmSetting)
    requires |regs| == 3
    ensures s.mask & !SUPPORTED == 0
    ensures Has(s.mask, MASK_MINUTE) <==> Enabled(regs[0])
    ensures Has(s.mask, MASK_HOUR) <==> Enabled(regs[1])
    ensures Has(s.mask, MASK_WEEKDAY) <==> Enabled(regs[2]) && ext & WADA_BIT == WEEKDAY_ALARM
    ensures Has(s.mask, MASK_MONTHDAY) <==> Enabled(regs[2]) && ext & WADA_BIT != WEEKDAY_ALARM
    ensures s.time.sec == prior.sec && s.time.mon == prior.mon && s.time.year == prior.year
    ensures s.time.yday == prior.yday && s.time.isdst == prior.isdst && s.time.nsec == prior.nsec
    ensures !Has(s.mask, MASK_MINUTE) ==> s.time.min == prior.min
    ensures !Has(s.mask, MASK_HOUR) ==> s.time.hour == prior.hour
    ensures !Has(s.mask, MASK_WEEKDAY) ==> s.time.wday == prior.wday
    ensures !Has(s.mask, MASK_MONTHDAY) ==> s.time.mday == prior.mday
  {
    var s := DecodeTimes(regs, prior);
    if Enabled(regs[2]) then DecodeDay(regs[2], ext, s) else s
  }

  /** The caller's time with the requested fields of `t` in place. */
  function Reported(t: RtcTime, mask: FieldMask, prior: RtcTime): RtcTime
  {
    prior.(min := if Has(mask, MASK_MINUTE) then t.min else prior.min,
           hour := if Has(mask, MASK_HOUR) then t.hour else prior.hour,
           mday := if Has(mask, MASK_MONTHDAY) then t.mday else prior.mday,
           wday := if Has(mask, MASK_WEEKDAY) then t.wday else prior.wday)
  }

  /** The minute and hour bytes decode to the requested fields. */
  lemma TimesRoundTrip(t: RtcTime, mask: FieldMask, regs: seq<byte>, prior: RtcTime)
    requires AlarmTimeValid(t, mask) && |regs| == 3
    requires regs[0] == MinuteByte(t, mask) && regs[1] == HourByte(t, mask)
    ensures DecodeTimes(regs, prior).mask == mask & (MASK_MINUTE | MASK_HOUR)
    ensures DecodeTimes(regs, prior).time
         == prior.(min := if Has(mask, MASK_MINUTE) then t.min else prior.min,
                   hour := if Has(mask, MASK_HOUR) then t.hour else prior.hour)
  {
    if Has(mask, MASK_MINUTE) {
      BcdFieldRoundTrip(t.min, MINUTES_BITS);
    }
    if Has(mask, MASK_HOUR) {
      BcdFieldRoundTrip(t.hour, HOURS_BITS);
    }
  }

  /** The day byte decodes, under the WADA value written with it, to the
   *  requested weekday or date. */
  lemma DayRoundTrip(t: RtcTime, mask: FieldMask, ext: byte)
    requires AlarmTimeValid(t, mask)
    requires Has(mask, MASK_WEEKDAY) || Has(mask, MASK_MONTHDAY)
    ensures Has(mask, MASK_WEEKDAY) ==>
      Masked(ext, WADA_BIT, Wada(mask)) & WADA_BIT == WEEKDAY_ALARM &&
      Log2(DayByte(t, mask) & WEEKDAY_BITS) == t.wday
    ensures Has(mask, MASK_MONTHDAY) ==>
      Masked(ext, WADA_BIT, Wada(mask)) & WADA_BIT != WEEKDAY_ALARM &&
      Bcd2Bin(DayByte(t, mask) & DATE_BITS) as int == t.mday
  {
    if Has(mask, MASK_WEEKDAY) {
      OneHotRoundTrip(t.wday);
    } else {
      BcdFieldRoundTrip(t.mday, DATE_BITS);
    }
  }

  /** Round trip: for a valid alarm, the bytes and the WADA value the
   *  driver writes decode to the requested supported fields with their
   *  values; every other field keeps the caller's value. */
  lemma AlarmRoundTrip(t: RtcTime, mask: FieldMask, ext: byte, prior: RtcTime)
    requires AlarmTimeValid(t, mask)
    ensures DecodeAlarm(AlarmBytes(t, mask), Masked(ext, WADA_BIT, Wada(mask)), prior)
         == AlarmSetting(mask & SUPPORTED, Reported(t, mask, prior))
  {
    var regs := AlarmBytes(t, mask);
    var e := Masked(ext, WADA_BIT, Wada(mask));
    TimesRoundTrip(t, mask, regs, prior);
    var s := DecodeTimes(regs, prior);
    if Has(mask, MASK_WEEKDAY) || Has(mask, MASK_MONTHDAY) {
      DayRoundTrip(t, mask, ext);
      assert Enabled(regs[2]);
      if Has(mask, MASK_WEEKDAY) {
        assert DecodeDay(regs[2], e, s) == AlarmSetting(s.mask | MASK_WEEKDAY, s.time.(wday := t.wday));
      } else {
        assert DecodeDay(regs[2], e, s) == AlarmSetting(s.mask | MASK_MONTHDAY, s.time.(mday := t.mday));
      }
    } else {
      assert !Enabled(regs[2]);
    }
  }

  // ---------------------------------------------- the `&&` of the WADA test

  /** A weekday alarm on Tuesday: written with the WADA value as computed,
   *  it reads back as a date alarm on the 4th. */
  lemma AsWrittenWadaMisreads()
    ensures var t := RtcTime(0, 30, 7, 1, 0, 124, 2, -1, -1, 0);
            var intended := DecodeAlarm(AlarmBytes(t, MASK_WEEKDAY), Masked(0, WADA_BIT, Wada(MASK_WEEKDAY)), t);
            var written := DecodeAlarm(AlarmBytes(t, MASK_WEEKDAY), Masked(0, WADA_BIT, WadaAsWritten(MASK_WEEKDAY)), t);
            intended == AlarmSetting(MASK_WEEKDAY, t) &&
            written == AlarmSetting(MASK_MONTHDAY, t.(mday := 4))
  {
    var t := RtcTime(0, 30, 7, 1, 0, 124, 2, -1, -1, 0);
    AlarmRoundTrip(t, MASK_WEEKDAY, 0, t);
    assert AlarmBytes(t, MASK_WEEKDAY)[2] == 0x04;
  }

  /** An alarm on the minute only, requested with the date field at 15:
   *  the earlier revision's bytes make the chip also compare the date, and
   *  `alarm_get_time` then reports a date alarm on the 15th. */
  lemma AsWrittenDayByteCompares()
    ensures var t := RtcTime(0, 30, 7, 15, 0, 124, 2, -1, -1, 0);
            var bytes := [MinuteByte(t, MASK_MINUTE), HourByte(t, MASK_MINUTE), DayByteAsWritten(t, MASK_MINUTE)];
            DayByte(t, MASK_MINUTE) == ALARM_OFF &&
            DayByteAsWritten(t, MASK_MINUTE) == 0x15 &&
            DecodeAlarm(bytes, Masked(0, WADA_BIT, WadaAsWritten(MASK_MINUTE)), t).mask == MASK_MINUTE | MASK_MONTHDAY
  {
    var t := RtcTime(0, 30, 7, 15, 0, 124, 2, -1, -1, 0);
    ToByteFits(15, DATE_BITS);
    assert Field(15, DATE_BITS) == 0x15;
  }

  /** Every nonzero mask makes both revisions select the date alarm, and
   *  only the empty mask the weekday alarm. */
  lemma AsWrittenWadaIsDate(rev: Revision, mask: FieldMask)
    requires rev != Intended
    ensures WadaOf(rev, mask) == MONTHDAY_ALARM <==> mask != 0
    ensures WadaOf(rev, mask) == WEEKDAY_ALARM <==> mask == 0
  {
  }

  /** The earlier revision compares the date for every nonzero mask without
   *  the weekday: its weekday/date register is then the BCD date with
   *  bit 7 clear, whether or not the date was requested. */
  lemma AsWrittenDayByteIsDate(t: RtcTime, mask: FieldMask)
    requires mask != 0 && !Has(mask, MASK_WEEKDAY)
    ensures DayByteAsWritten(t, mask) == Field(t.mday, DATE_BITS)
    ensures Enabled(DayByteAsWritten(t, mask))
    ensures DayByteAsWritten(t, mask) == DayByte(t, mask) <==> Has(mask, MASK_MONTHDAY)
  {
    assert Field(t.mday, DATE_BITS) & ALARM_OFF == 0;
  }

  /** What the current revision's alarm reads back as: a weekday alarm
   *  comes back as a date alarm, whose date is the weekday register read
   *  as BCD; every other valid alarm comes back as requested. */
  lemma AsWrittenRoundTrip(t: RtcTime, mask: FieldMask, ext: byte, prior: RtcTime)
    requires AlarmTimeValid(t, mask)
    ensures var s := DecodeAlarm(AlarmBytes(t, mask), Masked(ext, WADA_BIT, WadaAsWritten(mask)), prior);
            if Has(mask, MASK_WEEKDAY) then
              s.mask == (mask & SUPPORTED & !MASK_WEEKDAY) | MASK_MONTHDAY &&
              s.time == Reported(t, mask & !MASK_WEEKDAY, prior).(mday := Bcd2Bin(DayByte(t, mask) & DATE_BITS) as int)
            else
              s == AlarmSetting(mask & SUPPORTED, Reported(t, mask, prior))
  {
    var regs := AlarmBytes(t, mask);
    var e := Masked(ext, WADA_BIT, WadaAsWritten(mask));
    if Has(mask, MASK_WEEKDAY) {
      assert e & WADA_BIT == MONTHDAY_ALARM;
      assert Enabled(regs[2]);
      TimesRoundTrip(t, mask, regs, prior);
      var s := DecodeTimes(regs, prior);
      assert DecodeAlarm(regs, e, prior) == DecodeDay(regs[2], e, s);
      assert DecodeDay(regs[2], e, s)
          == AlarmSetting(s.mask | MASK_MONTHDAY, s.time.(mday := Bcd2Bin(regs[2] & DATE_BITS) as int));
    } else if Has(mask, MASK_MONTHDAY) {
      assert e == Masked(ext, WADA_BIT, Wada(mask));
      AlarmRoundTrip(t, mask, ext, prior);
    } else {
      assert !Enabled(regs[2]);
      AlarmRoundTrip(t, mask, ext, prior);
      assert DecodeAlarm(regs, e, prior) == DecodeTimes(regs, prior);
      assert DecodeAlarm(regs, Masked(ext, WADA_BIT, Wada(mask)), prior) == DecodeTimes(regs, prior);
    }
  }

  /** The earlier revision's alarm without the weekday reads back with the
   *  date field reported, whether or not it was requested. */
  lemma EarlierReportsDate(t: RtcTime, mask: FieldMask, ext: byte, prior: RtcTime)
    requires AlarmTimeValid(t, mask) && mask != 0 && !Has(mask, MASK_WEEKDAY)
    ensures var s := DecodeAlarm(AlarmBytesOf(Earlier, t, mask), Masked(ext, WADA_BIT, WadaOf(Earlier, mask)), prior);
            Has(s.mask, MASK_MONTHDAY) && !Has(s.mask, MASK_WEEKDAY) &&
            s.time.mday == Bcd2Bin(Field(t.mday, DATE_BITS)) as int
  {
    AsWrittenDayByteIsDate(t, mask);
    var regs := AlarmBytesOf(Earlier, t, mask);
    assert Masked(ext, WADA_BIT, WadaOf(Earlier, mask)) & WADA_BIT == MONTHDAY_ALARM;
    assert Field(t.mday, DATE_BITS) & DATE_BITS == Field(t.mday, DATE_BITS);
  }
}
