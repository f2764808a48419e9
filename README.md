# RV-8803 real-time clock drivers for Zephyr, modelled in Dafny

The Micro Crystal RV-8803 is an I2C real-time clock. It has sixteen 8-bit
registers:

- a BCD calendar from seconds to years (0x00..0x06);
- three alarm registers (0x08..0x0A);
- a 12-bit countdown timer (TC0/TC1, 0x0B..0x0C);
- an extension register (0x0D), a flag register (0x0E) and a control register (0x0F).

The repository drives the chip through several Zephyr drivers, and this project models each of them:

- **The multi-function device.** It owns the I2C bus and the interrupt line. It fans the interrupt out to its listeners, and it checks the battery flags at start-up.
- **The RTC drivers.** There are three Micro Crystal revisions of the RTC driver: the current `rv8803_rtc.c`, the earlier `microcrystal/rv8803/rv8803.c` and the oldest `rv8803/rv8803.c`. There are also two drivers for the RV-8803-C7 variant: `rtc_rv8803c7.c` and `rv_8803_c7.c`.
- **The counter driver.** It drives the countdown timer.
- **The clock-control drivers.** They set the CLKOUT frequency.

The chip is a value, `Bus.Chip`. It holds:

- the registers;
- the calendar readings the oscillator will present to the next reads of the seconds register;
- the outcome code the bus gives each next transaction (a negative code is a failure);
- a log of every transaction and every callback call.

`Bus.RegisterFile` is the same state as an object. Its methods are the Zephyr I2C calls and the multi-function device's register wrappers. Each method is proved to be exactly one transaction, `Bus.Fire`.

Each driver operation is a method that takes a `RegisterFile`. Each method is proved equal to a straight-line `Bus.Script` run on the chip:

- a checked access whose error is returned at once;
- an unchecked access whose error is only logged;
- a call into a registered callback.

Lemmas then state what each script does:

- how it behaves on a bus that serves every transaction ("clean");
- how it behaves on a bus that fails at a chosen transaction.

Separate lemmas state the codecs that compute the bytes, with round trips in both directions.

The three Micro Crystal RTC revisions share the same `set_time` and `get_time` code, line for line. The two newer ones also share their alarm transactions, except for the two earlier-revision differences listed under Findings. That shared code is modelled once, in `CalendarDriver` and `AlarmDriver`. The rows below cite each revision at the member that models it. The clock-control driver under the multi-function device (`rv8803_clock.c`) and the one under the RTC device (`rv8803_clk.c`) issue the same transactions over different bus handles, so both are modelled by the `Clock` module.

Three points about the model's choices:

- **Top value of the counter.** The counter driver advertises a top value of 4095 (`max_top_value`, `rv8803_counter.c:272`), but its own check at line 50 refuses it. Only the predicate `Counter.TicksAsWritten` follows the code. The operation `Counter.CounterData.SetTopValue` is modelled corrected and accepts 4095. The discrepancy is recorded under Findings.
- **Alarm interrupt.** `alarm_set_time` enables the alarm interrupt (AIE) on every successful arm, whether or not a callback is registered, and the model does the same (`AlarmDriver.ArmScript`).
- **The alarm's `&&` tests.** `AlarmDriver.AlarmSetTime` takes a `Revision`. `Current` and `Earlier` are the two Micro Crystal revisions as written, with their `mask && RTC_ALARM_TIME_MASK_MONTHDAY` tests. `Intended` is the same code with `&` in those tests. The as-written lemmas state what the code does; the round trips are proved for `Intended` (see Findings).

## Model

| member | source | states |
|---|---|---|
| Bus.RegisterFile.ReadByte | drivers/mfd/microcrystal/rv8803/rv8803_mfd.c:40-50 | a byte read is one transaction; on success the value is the register's byte |
| Bus.RegisterFile.WriteByte | drivers/mfd/microcrystal/rv8803/rv8803_mfd.c:62-72 | a byte write is one transaction and stores the byte when served |
| Bus.RegisterFile.UpdateByte | drivers/mfd/microcrystal/rv8803/rv8803_mfd.c:85-96 | a masked write is one transaction: the masked bits take the value's bits, the others keep theirs |
| Bus.RegisterFile.BurstRead | drivers/mfd/microcrystal/rv8803/rv8803_mfd.c:109-121 | a burst read is one transaction; on success it returns the addressed registers (the next calendar reading when it starts at the seconds register) |
| Bus.RegisterFile.BurstWrite | drivers/mfd/microcrystal/rv8803/rv8803_mfd.c:134-146 | a burst write is one transaction and stores the bytes from the start address on |
| Bus.RegisterFile.WriteRaw | drivers/rtc/rv8803c7/rtc_rv8803c7.c:83 | a raw write is one transaction whose first byte selects the register the rest is stored from |
| Calendar.Encode | drivers/rtc/microcrystal/rv8803/rv8803_rtc.c:40-46 | the seven calendar bytes, each with no bit outside its field mask |
| Calendar.Decode | drivers/rtc/microcrystal/rv8803/rv8803_rtc.c:101-112 | the reported time has nsec 0, isdst -1 and yday -1 whatever the bytes |
| Calendar.EncodeCanonical | drivers/rtc/microcrystal/rv8803/rv8803_rtc.c:40-46 | every time in range is written as a valid calendar image (BCD digits, fields in range, one weekday bit) |
| Calendar.EncodeDecode | drivers/rtc/microcrystal/rv8803/rv8803_rtc.c:40-112 | reading back what `set_time` writes gives the time set, for every time in range, the unused fields aside |
| Calendar.DecodeInRange | drivers/rtc/microcrystal/rv8803/rv8803_rtc.c:101-107 | a valid calendar image decodes to a time in range |
| Calendar.DecodeEncode | drivers/rtc/microcrystal/rv8803/rv8803_rtc.c:101-107 | a valid calendar image decodes to a time that is written back as the same seven bytes |
| Calendar.Reading | drivers/rtc/microcrystal/rv8803/rv8803_rtc.c:89-99 | the re-read is decoded exactly when the first reading shows 59 seconds and the re-read does not; otherwise the first reading |
| Calendar.ReadingAvoidsRollover | drivers/rtc/microcrystal/rv8803/rv8803_rtc.c:89-99 | the decoded reading shows 59 seconds only when both readings did |
| Calendar.AsWrittenKeepsFirst | drivers/rtc/rv8803c7/rtc_rv8803c7.c:103-111 | as written, the `rtc_rv8803c7` test never selects the re-read |
| Calendar.AsWrittenMissesReread | drivers/rtc/rv8803c7/rtc_rv8803c7.c:108-110 | a reading at 23:59:59 followed by one at midnight: the intended rule decodes midnight, the code the first reading |
| Calendar.EncodeBcdWeekday | drivers/rtc/rv_8803_c7/rv_8803_c7.c:40-46 | seven bytes; the weekday and month bytes stay inside their field masks |
| Calendar.DecodeBcdWeekday | drivers/rtc/rv_8803_c7/rv_8803_c7.c:73-79 | nsec, isdst and yday keep the caller's values |
| Calendar.EncodeDecodeBcdWeekday | drivers/rtc/rv_8803_c7/rv_8803_c7.c:40-79 | for every time in range, reading back the BCD-weekday bytes gives every calendar field set, and the caller's other fields |
| CalendarDriver.HoldRelease | drivers/rtc/microcrystal/rv8803/rv8803_rtc.c:54-65 | the held control byte has RESET set; the released one has RESET clear and every other bit as read |
| CalendarDriver.SetTimeHeld | drivers/rtc/microcrystal/rv8803/rv8803_rtc.c:20-68 | `set_time` is its script; a NULL time or a year outside 2000..2099 gives -EINVAL with no bus access |
| CalendarDriver.HoldAndWrite | drivers/rtc/microcrystal/rv8803/rv8803.c:100-147 | control read, RESET hold, calendar write with its error ignored, release; each other error returned at once |
| CalendarDriver.HeldClean | drivers/rtc/rv8803/rv8803.c:56-103 | on a bus that serves it, the write leaves the calendar bytes and the released control byte, and logs read, hold, write and release in that order |
| CalendarDriver.HeldIgnoresWriteError | drivers/rtc/microcrystal/rv8803/rv8803_rtc.c:61-67 | when only the calendar write fails, 0 is still returned, the calendar is unchanged and the control byte ends released |
| CalendarDriver.HoldWriteRelease | drivers/rtc/microcrystal/rv8803/rv8803_rtc.c:49-67 | the three writes leave the new calendar, the registers between calendar and control unchanged, and the last control byte |
| CalendarDriver.SetTimeClean | drivers/rtc/microcrystal/rv8803/rv8803.c:100-147 | on a clean bus an accepted time is stored, RESET ends clear with the other control bits as read, nothing else changes |
| CalendarDriver.SetTimeIgnoresCalendarError | drivers/rtc/rv8803/rv8803.c:86-102 | a failed calendar write is reported as success and only RESET is cleared |
| CalendarDriver.ReadCalendar | drivers/rtc/microcrystal/rv8803/rv8803.c:149-199 | one calendar read and a second only when the first shows 59 seconds; on success the first and the latest readings |
| CalendarDriver.GetTimeReread | drivers/rtc/microcrystal/rv8803/rv8803_rtc.c:70-118 | `get_time` is its script; on success the time is `Decode` of the reading `Reading` selects; NULL gives -EINVAL; on an error the caller's time is untouched |
| CalendarDriver.SetThenGet | drivers/rtc/rv8803/rv8803.c:56-155 | on a clean bus with a stopped calendar, `get_time` after `set_time` reports the time set, the unused fields aside |
| Alarm.AlarmTimeValidCases | drivers/rtc/microcrystal/rv8803/rv8803_rtc.c:171-204 | an alarm time is refused exactly when the seconds or the month are set, both day fields are requested, or a requested field is out of range |
| Alarm.AlarmBytes | drivers/rtc/microcrystal/rv8803/rv8803_rtc.c:280-303 | three alarm bytes whose enable bit is clear exactly for the requested minute, hour and weekday-or-date |
| Alarm.Wada | drivers/rtc/microcrystal/rv8803/rv8803_rtc.c:267-271 | (corrected) WADA selects a date alarm exactly when the date is requested, and touches no other bit |
| Alarm.DecodeAlarm | drivers/rtc/microcrystal/rv8803/rv8803_rtc.c:334-367 | a field is reported exactly when its register is enabled, WADA decides weekday or date, and unreported fields keep the caller's values |
| Alarm.TimesRoundTrip | drivers/rtc/microcrystal/rv8803/rv8803_rtc.c:281-351 | the minute and hour bytes decode to the requested minute and hour |
| Alarm.DayRoundTrip | drivers/rtc/microcrystal/rv8803/rv8803_rtc.c:267-366 | the third byte, under the WADA written with it, decodes to the requested weekday or date |
| Alarm.AlarmRoundTrip | drivers/rtc/microcrystal/rv8803/rv8803.c:247-381 | for every valid alarm, the bytes and the WADA value written decode to the requested supported fields with their values |
| Alarm.AsWrittenWadaMisreads | drivers/rtc/microcrystal/rv8803/rv8803_rtc.c:269 | as written, a Tuesday weekday alarm reads back as a date alarm on the 4th |
| Alarm.AsWrittenDayByteCompares | drivers/rtc/microcrystal/rv8803/rv8803.c:321 | as written, a minute-only alarm also compares the date and reads back with the date field |
| Alarm.AlarmBytesOf | drivers/rtc/microcrystal/rv8803/rv8803.c:303-326 | the revision's three bytes: minute and hour as in every revision, the third register as the revision fills it |
| Alarm.AsWrittenWadaIsDate | drivers/rtc/microcrystal/rv8803/rv8803_rtc.c:268-271 | as written, WADA selects the date alarm exactly for the nonzero masks |
| Alarm.AsWrittenDayByteIsDate | drivers/rtc/microcrystal/rv8803/rv8803.c:318-326 | for every nonzero mask without the weekday, the earlier revision's third register is the BCD date with bit 7 clear, which differs from the current one's exactly when the date was not requested |
| Alarm.AsWrittenRoundTrip | drivers/rtc/microcrystal/rv8803/rv8803_rtc.c:267-367 | as written, a weekday alarm decodes as a date alarm whose date is the weekday bit read as BCD; every other valid alarm decodes as requested |
| Alarm.EarlierReportsDate | drivers/rtc/microcrystal/rv8803/rv8803.c:291-378 | the earlier revision's alarm without the weekday always reads back with the date reported |
| AlarmDriver.AlarmSetTime | drivers/rtc/microcrystal/rv8803/rv8803_rtc.c:217-321 | `alarm_set_time` is its script for the chosen revision: -EINVAL with no access for a NULL time with fields or an invalid time; the disarm for an empty mask; else disarm, the revision's WADA value, its bytes and AIE, each error returned |
| AlarmDriver.ChooseWada | drivers/rtc/microcrystal/rv8803/rv8803_rtc.c:267-271 | the WADA value is the revision's: as written the date alarm for every nonzero mask, with `&` only when the date is requested |
| AlarmDriver.AlarmRegisters | drivers/rtc/microcrystal/rv8803/rv8803.c:303-326 | the three registers filled field by field are the revision's alarm bytes, the earlier revision's date test included |
| AlarmDriver.Disarm | drivers/rtc/microcrystal/rv8803/rv8803_rtc.c:236-251 | AIE then AF cleared, each error returned at once |
| AlarmDriver.Arm | drivers/rtc/microcrystal/rv8803/rv8803_rtc.c:253-320 | the five accesses of setting an alarm in order, each error returned at once |
| AlarmDriver.DisarmClean | drivers/rtc/microcrystal/rv8803/rv8803.c:247-339 | on a clean bus the disarm clears AIE and AF and changes nothing else |
| AlarmDriver.ArmClean | drivers/rtc/microcrystal/rv8803/rv8803_rtc.c:253-320 | on a clean bus the arm stores the bytes, the WADA value and AIE, clears AF and changes nothing else |
| AlarmDriver.RemoveAlarmClean | drivers/rtc/microcrystal/rv8803/rv8803_rtc.c:235-251 | in every revision an empty mask only clears AIE and AF |
| AlarmDriver.SetAlarmClean | drivers/rtc/microcrystal/rv8803/rv8803.c:279-338 | on a clean bus a valid nonzero alarm leaves the revision's bytes in the alarm registers, its WADA value in EXTENSION, AIE set and AF clear |
| AlarmDriver.SetAlarmAsWrittenSelectsDate | drivers/rtc/microcrystal/rv8803/rv8803_rtc.c:267-276 | as written, both revisions leave WADA on the date alarm after every valid nonzero alarm |
| AlarmDriver.SetAlarmAsWrittenThenGet | drivers/rtc/microcrystal/rv8803/rv8803_rtc.c:217-370 | as written, a weekday alarm set and read back comes back as a date alarm; every other valid alarm comes back as requested |
| AlarmDriver.SetAlarmThenGet | drivers/rtc/microcrystal/rv8803/rv8803_rtc.c:217-370 | (corrected) with `&` in the WADA test, setting a valid alarm on a clean bus and decoding the registers gives the requested supported fields, AIE set and AF clear |
| AlarmDriver.AlarmGetTime | drivers/rtc/microcrystal/rv8803/rv8803_rtc.c:323-370 | `alarm_get_time` is its script; NULL gives -EINVAL with the mask untouched; success gives `DecodeAlarm`; a failed WADA read leaves the minute and hour reported |
| AlarmDriver.DecodeAlarmTimes | drivers/rtc/microcrystal/rv8803/rv8803.c:341-381 | the field-by-field minute and hour decoding equals `DecodeTimes` |
| AlarmDriver.DecodeAlarmDay | drivers/rtc/microcrystal/rv8803/rv8803_rtc.c:360-366 | the weekday-or-date decoding equals `DecodeDay` |
| AlarmDriver.AlarmIsPending | drivers/rtc/microcrystal/rv8803/rv8803_rtc.c:372-396 | read the flag register and, when AF is set, clear AF and return 1 |
| AlarmDriver.PendingClean | drivers/rtc/microcrystal/rv8803/rv8803_rtc.c:380-395 | on a clean bus the result is 1 exactly when AF was set, AF is then cleared, and nothing else changes |
| AlarmDriver.PendingAsWrittenKeeps | drivers/rtc/microcrystal/rv8803/rv8803.c:383-404 | as written, a pending alarm is reported and the registers are left as they were |
| AlarmDriver.PendingAsWrittenStays | drivers/rtc/microcrystal/rv8803/rv8803.c:393-401 | as written, the next call reports the same alarm again |
| Rv8803Rtc.AckedBits | drivers/rtc/microcrystal/rv8803/rv8803_rtc.c:137-165 | after the worker a flag bit stays set exactly when it was set and has no callback; other flag bits keep their values |
| Rv8803Rtc.WorkerClean | drivers/rtc/microcrystal/rv8803/rv8803_rtc.c:121-167 | on a clean bus each due callback is called before its flag is cleared, alarm first, and no other register changes |
| Rv8803Rtc.SetupUpdateInterrupt | drivers/rtc/microcrystal/rv8803/rv8803_rtc.c:418-455 | UIE and UF cleared, then (unless disabling) USEL cleared and UIE set, each error returned at once |
| Rv8803Rtc.UpdateIrqOffClean | drivers/rtc/microcrystal/rv8803/rv8803_rtc.c:424-438 | switching off clears UIE and UF and no other bit |
| Rv8803Rtc.UpdateIrqOnClean | drivers/rtc/microcrystal/rv8803/rv8803_rtc.c:424-454 | switching on leaves UF and USEL clear and UIE set, and no other bit changed |
| Rv8803Rtc.RtcData.AlarmSetCallback | drivers/rtc/microcrystal/rv8803/rv8803_rtc.c:398-413 | without an interrupt line -ENOTSUP and nothing stored; otherwise the callback and data are stored and the update callback is kept |
| Rv8803Rtc.RtcData.UpdateSetCallback | drivers/rtc/microcrystal/rv8803/rv8803_rtc.c:457-479 | -ENOTSUP without an interrupt line; the callback is stored even when refused; NULL with data gives -EINVAL with no access; otherwise the set-up, switched off for NULL and NULL |
| Rv8803Rtc.RtcData.Worker | drivers/rtc/microcrystal/rv8803/rv8803_rtc.c:121-167 | the worker is its script: one flag read, then each interrupt whose flag is set and whose callback is registered |
| Rv8803Legacy.AlarmSetCallback | drivers/rtc/microcrystal/rv8803/rv8803.c:406-409 | the earlier revision stores nothing and reports success |
| Rv8803c7.FrameStores | drivers/rtc/rv8803c7/rtc_rv8803c7.c:74-83 | a served frame stores the seven bytes from the seconds register on and changes nothing else |
| Rv8803c7.FillFrame | drivers/rtc/rv8803c7/rtc_rv8803c7.c:72-81 | the buffer filled in place is the register address followed by `Encode` of the time |
| Rv8803c7.SetTime | drivers/rtc/rv8803c7/rtc_rv8803c7.c:54-84 | `set_time` is one raw write; a refused time gives -EINVAL with no bus access |
| Rv8803c7.SetTimeClean | drivers/rtc/rv8803c7/rtc_rv8803c7.c:54-84 | on a clean bus the encoded time is stored with no RESET hold and nothing else changes |
| Rv8803c7.GetTimeAsWritten | drivers/rtc/rv8803c7/rtc_rv8803c7.c:86-135 | as written, on success the first reading is decoded; NULL gives -EINVAL; on an error the caller's time is untouched |
| Rv8803c7.SetThenGet | drivers/rtc/rv8803c7/rtc_rv8803c7.c:54-135 | with a stopped calendar, the first reading, which the code as written decodes, is the time `set_time` stored |
| Rv8803C7Bcd.FillFrame | drivers/rtc/rv_8803_c7/rv_8803_c7.c:37-46 | the buffer is the register address followed by the BCD-weekday bytes |
| Rv8803C7Bcd.SetTime | drivers/rtc/rv_8803_c7/rv_8803_c7.c:19-49 | `set_time` is one raw write; a refused time gives -EINVAL with no bus access |
| Rv8803C7Bcd.SetTimeClean | drivers/rtc/rv_8803_c7/rv_8803_c7.c:19-49 | on a clean bus the BCD-weekday bytes are stored and nothing else changes |
| Rv8803C7Bcd.LatestAgainstReading | drivers/rtc/rv_8803_c7/rv_8803_c7.c:60-71 | the single buffer holds the re-read whenever there was one; this agrees with the two-buffer rule except when both readings show 59 seconds |
| Rv8803C7Bcd.GetTime | drivers/rtc/rv_8803_c7/rv_8803_c7.c:51-90 | on success the seven fields come from the latest reading and the others keep the caller's values; NULL gives -EINVAL |
| Rv8803C7Bcd.SetThenGet | drivers/rtc/rv_8803_c7/rv_8803_c7.c:19-90 | reading back after `set_time` gives every calendar field set |
| Mfd.NonNullMembers | drivers/mfd/microcrystal/rv8803/rv8803_mfd.c:211-219 | a work item is submitted exactly when it is in the array and not NULL |
| Mfd.NonNullSnoc | drivers/mfd/microcrystal/rv8803/rv8803_mfd.c:211-219 | extending the array extends the submissions by the new item when it is not NULL |
| Mfd.IrqRegistry.Append | drivers/mfd/microcrystal/rv8803/rv8803_mfd.c:177-191 | a full array gives -ENOSR and is unchanged; otherwise the listener takes the next slot and the count grows by one |
| Mfd.IrqRegistry.FanOut | drivers/mfd/microcrystal/rv8803/rv8803_mfd.c:203-220 | the items submitted are the non-NULL listeners, in array order |
| Mfd.AppendThenFanOut | drivers/mfd/microcrystal/rv8803/rv8803_mfd.c:177-220 | after an append the fan-out is the previous one followed by the new listener when it is not NULL |
| Mfd.AppendWithoutIrq | drivers/mfd/microcrystal/rv8803/rv8803_mfd.c:247-250 | without interrupt support appending gives -ENOTSUP |
| Mfd.IrqGpioAvailableWithoutIrq | drivers/mfd/microcrystal/rv8803/rv8803_mfd.c:231-234 | without interrupt support no interrupt line is available |
| Mfd.AcknowledgementBits | drivers/mfd/microcrystal/rv8803/rv8803_mfd.c:281-298 | the state is read from V2F and V1F; the write-back clears V2F when set, else V1F when set, else nothing is written |
| Mfd.AcknowledgementSettles | drivers/mfd/microcrystal/rv8803/rv8803_mfd.c:284-298 | after the write-back no power-on reset is shown, and low voltage only when it came with a power-on reset |
| Mfd.DeviceData.DetectBatteryState | drivers/mfd/microcrystal/rv8803/rv8803_mfd.c:267-301 | the check is its script; the state is stored once the read succeeds and kept when it fails |
| Mfd.BatteryClean | drivers/mfd/microcrystal/rv8803/rv8803_mfd.c:267-301 | on a clean bus only the flag register changes, and only by its write-back |
| Counter.AsWrittenRefusesMaxTop | drivers/counter/microcrystal/rv8803/rv8803_counter.c:50-53 | as written, 4095 is refused although it is valid and the registers give it back |
| Counter.AsWrittenOtherwiseAgrees | drivers/counter/microcrystal/rv8803/rv8803_counter.c:50-53 | for every other value the written check and the corrected one agree |
| Counter.TopOf | drivers/counter/microcrystal/rv8803/rv8803_counter.c:148 | the reassembled top value never exceeds 0x0FFF |
| Counter.TopRoundTrip | drivers/counter/microcrystal/rv8803/rv8803_counter.c:99-111 | every value up to 0x0FFF written to TC0 and the TC1 nibble is read back, and the high nibble of TC1 is kept |
| Counter.FrequencyCode | drivers/counter/microcrystal/rv8803/rv8803_counter.c:76-92 | 4096, 64 and 1 Hz have codes up to 2; every other frequency has none |
| Counter.Start | drivers/counter/microcrystal/rv8803/rv8803_counter.c:15-28 | one masked write setting TE |
| Counter.Stop | drivers/counter/microcrystal/rv8803/rv8803_counter.c:30-43 | one masked write clearing TE |
| Counter.StartStopBits | drivers/counter/microcrystal/rv8803/rv8803_counter.c:15-43 | start sets TE and stop clears it, with no other bit touched |
| Counter.Disable | drivers/counter/microcrystal/rv8803/rv8803_counter.c:55-72 | TE, TIE and TF cleared, each error returned at once, then the rest of the script |
| Counter.Configure | drivers/counter/microcrystal/rv8803/rv8803_counter.c:93-123 | TD, TC0 and the TC1 nibble, then TIE with an interrupt, each error returned at once |
| Counter.FrequencyRefusedClean | drivers/counter/microcrystal/rv8803/rv8803_counter.c:55-92 | an unknown frequency gives -EINVAL only after the three disables |
| Counter.FrequencyBits | drivers/counter/microcrystal/rv8803/rv8803_counter.c:56-97 | TE ends clear, TD holds the code and the other extension bits are kept |
| Counter.SetTopClean | drivers/counter/microcrystal/rv8803/rv8803_counter.c:45-134 | on a clean bus the top value is stored where `get_top_value` reads it back, TD selected, TE and TF clear, TIE set exactly with an interrupt, nothing else changed |
| Counter.GetTopValue | drivers/counter/microcrystal/rv8803/rv8803_counter.c:136-149 | one two-byte read; the reassembled value, or the error converted to `uint32_t` |
| Counter.GetPendingInt | drivers/counter/microcrystal/rv8803/rv8803_counter.c:151-174 | flag read; when TF is set, a clear whose error is ignored and 1; a read error converted to `uint32_t` |
| Counter.PendingIntClean | drivers/counter/microcrystal/rv8803/rv8803_counter.c:157-173 | on a clean bus the result is 1 exactly when TF was set, TF ends clear, nothing else changes |
| Counter.PendingIntIgnoresClearError | drivers/counter/microcrystal/rv8803/rv8803_counter.c:162-170 | when the clear fails the interrupt is still reported and TF stays set |
| Counter.WorkerClean | drivers/counter/microcrystal/rv8803/rv8803_counter.c:177-208 | on a clean bus a due callback is called before TF is cleared; otherwise only the flag read |
| Counter.CounterData.SetTopValue | drivers/counter/microcrystal/rv8803/rv8803_counter.c:45-134 | (corrected) `set_top_value` is its script; a value outside 1..4095 gives -EINVAL with no access; the callback is stored only after full success with both interrupt structures |
| Counter.CounterData.Worker | drivers/counter/microcrystal/rv8803/rv8803_counter.c:177-208 | the worker is its script: flag read, then when TF is set and a callback registered, the call and a clear of TF |
| Clock.RateOf | drivers/clock/microcrystal/rv8803/rv8803_clock.c:97-98 | the reported rate is FD, at most 3 |
| Clock.AlreadyIffSelected | drivers/clock/microcrystal/rv8803/rv8803_clock.c:40-43 | for rates FD can hold, "already" holds exactly when FD holds that rate |
| Clock.WrappedRateAlready | drivers/clock/microcrystal/rv8803/rv8803_clock.c:40-64 | a rate whose shift wraps to 0 on a 32-bit target is refused with -EALREADY rather than -ENOTSUP while FD is 0 |
| Clock.SelectedBits | drivers/clock/microcrystal/rv8803/rv8803_clock.c:45-64 | the written byte has the new rate in FD and every other bit kept, so `get_rate` reports it and a repeat is "already" |
| Clock.SetRate | drivers/clock/microcrystal/rv8803/rv8803_clock.c:27-72 | `set_rate` is its script: read, -EALREADY, -ENOTSUP, or the write, with every bus error returned |
| Clock.SetRateClean | drivers/rtc/microcrystal/rv8803/rv8803_clk.c:27-73 | on a clean bus a new supported rate is stored in FD and nothing else changes |
| Clock.SetRateAgain | drivers/clock/microcrystal/rv8803/rv8803_clock.c:35-43 | when FD already holds the rate, -EALREADY and nothing written |
| Clock.GetRate | drivers/rtc/microcrystal/rv8803/rv8803_clk.c:75-92 | one read; on success the rate is FD, on an error the caller's value is kept |
| Clock.On | drivers/rtc/microcrystal/rv8803/rv8803_clk.c:17-20 | switching the clock on is not supported |
| Clock.Off | drivers/rtc/microcrystal/rv8803/rv8803_clk.c:22-25 | switching the clock off is not supported |

## Left out

- The I2C transport itself is left out. A request either succeeds with the register semantics above or fails with the code the bus scenario gives it. A request outside the register file fails with -EIO.
- `i2c_reg_update_byte_dt` is modelled as one atomic masked write. Zephyr's implementation is a read followed by a write it skips when nothing would change.
- Logging is left out; it does not affect the result of any operation.
- Interrupt line and kernel:
  - The GPIO configuration, the work queue and the `k_work` submission are left out. The fan-out is modelled as the sequence of work items submitted.
  - `rv8803_irq_gpio_is_available` with interrupt support is a call into the GPIO driver, so it is left out.
  - The `init` functions of every driver are left out, as are the device-definition macros (beyond the counter's advertised maximum), the headers and the sample application.
- Rv8803Rtc.RtcData.Worker and Counter.CounterData.Worker require the flag read to succeed. On a failed read the C code tests an uninitialised byte, which has no defined behaviour.
- AlarmDriver.AlarmSetTime requires a time unless the mask is empty. With a NULL time and an empty mask the C code dereferences NULL in the validity check.
- `log2(0)` has no integer value in C (a weekday register with no bit set). The model gives it -1.
- `Common.OneHot` gives 0 for a weekday below 0 or above 6. For 7 to 30 this is what `(1 << tm_wday) & RV8803_WEEKDAY_BITS` gives too. For a negative count or one of 31 and above the C shift has no defined value, and the model's 0 is a choice.
- The stubs of `rv8803_cnt.c` are left out; they only return -ENOTSUP or 0.
- Arguments the drivers ignore are left out:
  - the `id` argument of the alarm calls;
  - the `sys` argument of the clock calls;
  - the device argument passed to the callbacks.
- Callbacks are opaque pointers: a call is recorded in the log and has no effect on the chip.
- `uintptr_t` is modelled as a 32-bit type, so `Clock.SetRate` states the wrap-around of `rate << 2` for a 32-bit target only.
- The counter's `ticks` is a C `uint32_t`. It is modelled as a natural number, so values of 2^32 and above are not excluded.
- The Micro Crystal revisions differ in their configuration macros (`RV8803_IRQ_GPIO_USE_ALARM`, `RV8803_HAS_IRQ`). The model takes every optional feature as compiled in, with the presence of the interrupt line and of the counter's interrupt structures as parameters.

## Findings

| source | as written | input that shows it | evidently intended | confidence | as-written member | corrected member |
|---|---|---|---|---|---|---|
| drivers/rtc/microcrystal/rv8803/rv8803_rtc.c:269 | `mask && RTC_ALARM_TIME_MASK_MONTHDAY` is true for every nonzero mask, so WADA always selects a date alarm (also drivers/rtc/microcrystal/rv8803/rv8803.c:293) | a weekday alarm on Tuesday (mask WEEKDAY, tm_wday 2) reads back as a date alarm on the 4th | `mask & RTC_ALARM_TIME_MASK_MONTHDAY` | high, not executed | AlarmDriver.SetAlarmAsWrittenThenGet | AlarmDriver.SetAlarmThenGet |
| drivers/rtc/microcrystal/rv8803/rv8803.c:321 | the date branch of the weekday/date register tests `mask && RTC_ALARM_TIME_MASK_MONTHDAY`, true for every mask that reaches it | a minute-only alarm with tm_mday 15 also makes the chip compare the date | `mask & RTC_ALARM_TIME_MASK_MONTHDAY`, else the register disabled | high, not executed | Alarm.EarlierReportsDate | Alarm.AlarmRoundTrip |
| drivers/rtc/rv8803c7/rtc_rv8803c7.c:108 | after the re-read the test looks at `correct`, which still points to the first reading, known to show 59 seconds | a first reading at 23:59:59 and a re-read at midnight: the first reading is decoded | test the re-read (`regs2[0]`), as the Micro Crystal revisions do | high, not executed | Calendar.AsWrittenMissesReread | Calendar.ReadingAvoidsRollover |
| drivers/rtc/microcrystal/rv8803/rv8803.c:393-397 | `alarm_is_pending` writes 1 into AF, which leaves the flag set | a pending alarm is reported by every later call too | write 0 into AF, as the current revision does | high, not executed | AlarmDriver.PendingAsWrittenStays | AlarmDriver.PendingClean |
| drivers/counter/microcrystal/rv8803/rv8803_counter.c:50 | `ticks >= RV8803_COUNTER_MAX_TOP_VALUE` refuses 4095, the `max_top_value` the driver advertises (line 272) and a value TC0/TC1 hold | ticks 4095 gives -EINVAL | `ticks > RV8803_COUNTER_MAX_TOP_VALUE` | medium, not executed | Counter.AsWrittenRefusesMaxTop | Counter.CounterData.SetTopValue |
