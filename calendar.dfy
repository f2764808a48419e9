/**
 * The calendar registers 0x00..0x06 of the RV-8803 and the two encodings of
 * Zephyr's `struct rtc_time` the driver revisions use: seven masked BCD
 * bytes with a one-hot weekday and a month counted from 1 (the Micro Crystal
 * drivers), or with a BCD weekday and the `tm_mon` value stored as is (the
 * `rv_8803_c7` driver). Also the rule each revision uses to pick between two
 * readings when the first one shows 59 seconds.
 */
module Calendar {
  import opened Common

  /** Zephyr's `struct rtc_time` (every field a C `int`). */
  datatype RtcTime = RtcTime(
    sec: int, min: int, hour: int, mday: int, mon: int, year: int,
    wday: int, yday: int, isdst: int, nsec: int)

  // ------------------------------------------------------ register fields

  const SECONDS_BITS: byte := 0x7F
  const MINUTES_BITS: byte := 0x7F
  const HOURS_BITS: byte := 0x3F
  const WEEKDAY_BITS: byte := 0x7F
  const DATE_BITS: byte := 0x3F
  const MONTH_BITS: byte := 0x1F
  const YEAR_BITS: byte := 0xFF

  /** `tm_mon` counts months from 0, the chip from 1. */
  const TM_MONTH: int := 1
  /** `tm_year` counts from 1900; the chip holds the years 2000..2099. */
  const YEAR_MIN: int := 2000 - 1900
  const YEAR_MAX: int := 2099 - 1900
  /** `bin2bcd(59)`: a seconds register about to roll over. */
  const ROLLOVER: byte := 0x59

  /** The check every `set_time` makes before touching the bus. */
  predicate Accepts(tp: Option<RtcTime>)
  {
    tp.Some? && YEAR_MIN <= tp.value.year <= YEAR_MAX
  }

  /** The fields a calendar can hold. */
  predicate InRange(t: RtcTime)
  {
    0 <= t.sec <= 59 && 0 <= t.min <= 59 && 0 <= t.hour <= 23 && 0 <= t.wday <= 6 &&
    1 <= t.mday <= 31 && 0 <= t.mon <= 11 && YEAR_MIN <= t.year <= YEAR_MAX
  }

  /** The unused fields as `get_time` leaves them. */
  function Unused(t: RtcTime): RtcTime
  {
    t.(nsec := 0, isdst := -1, yday := -1)
  }

  /** One calendar field: `bin2bcd(v) & bits`, where `bin2bcd` takes a
   *  `uint8_t`. */
  function Field(v: int, bits: byte): byte
  {
    Bin2Bcd(ToByte(v)) & bits
  }

  // ------------------------------------------ one-hot weekday, month + 1

  /** The seven bytes `set_time` writes from the seconds register on. */
  function Encode(t: RtcTime): (regs: seq<byte>)
    ensures |regs| == 7
    ensures regs[0] & !SECONDS_BITS == 0 && regs[1] & !MINUTES_BITS == 0
    ensures regs[2] & !HOURS_BITS == 0 && regs[3] & !WEEKDAY_BITS == 0
    ensures regs[4] & !DATE_BITS == 0 && regs[5] & !MONTH_BITS == 0
  {
    [Field(t.sec, SECONDS_BITS),
     Field(t.min, MINUTES_BITS),
     Field(t.hour, HOURS_BITS),
     OneHot(t.wday) & WEEKDAY_BITS,
     Field(t.mday, DATE_BITS),
     Field(t.mon + TM_MONTH, MONTH_BITS),
     Field(t.year - YEAR_MIN, YEAR_BITS)]
  }

  /** The time `get_time` reports for seven calendar bytes. */
  function Decode(regs: seq<byte>): (t: RtcTime)
    requires |regs| == 7
    ensures t == Unused(t)
  {
    RtcTime(
      sec := Bcd2Bin(regs[0] & SECONDS_BITS) as int,
      min := Bcd2Bin(regs[1] & MINUTES_BITS) as int,
      hour := Bcd2Bin(regs[2] & HOURS_BITS) as int,
      mday := Bcd2Bin(regs[4] & DATE_BITS) as int,
      mon := Bcd2Bin(regs[5] & MONTH_BITS) as int - TM_MONTH,
      year := Bcd2Bin(regs[6] & YEAR_BITS) as int + YEAR_MIN,
      wday := Log2(regs[3] & WEEKDAY_BITS),
      yday := -1, isdst := -1, nsec := 0)
  }

  /** A BCD byte holding a value in `lo..hi` inside the field `bits`. */
  predicate BcdField(b: byte, bits: byte, lo: int, hi: int)
  {
    b & !bits == 0 && IsBcd(b) && lo <= Bcd2Bin(b) as int <= hi
  }

  /** A weekday register holding one of the seven weekday bits. */
  predicate WeekdayImage(b: byte)
  {
    0 <= Log2(b) <= 6 && b == OneHot(Log2(b))
  }

  /** Such a register decodes to a weekday whose bit is the register. */
  lemma WeekdayOfImage(b: byte)
    requires WeekdayImage(b)
    ensures 0 <= Log2(b & WEEKDAY_BITS) <= 6 && OneHot(Log2(b & WEEKDAY_BITS)) & WEEKDAY_BITS == b
  {
  }

  /** Seven calendar bytes as the chip holds a valid date and time. */
  predicate Canonical(regs: seq<byte>)
  {
    |regs| == 7 &&
    BcdField(regs[0], SECONDS_BITS, 0, 59) && BcdField(regs[1], MINUTES_BITS, 0, 59) &&
    BcdField(regs[2], HOURS_BITS, 0, 23) &&
    WeekdayImage(regs[3]) &&
    BcdField(regs[4], DATE_BITS, 1, 31) && BcdField(regs[5], MONTH_BITS, 1, 12) &&
    BcdField(regs[6], YEAR_BITS, 0, 99)
  }

  /** A BCD field of an image is already masked and encodes back from its
   *  value. */
  lemma BcdFieldDecode(b: byte, bits: byte, lo: int, hi: int)
    requires BcdField(b, bits, lo, hi)
    ensures b & bits == b && Field(Bcd2Bin(b) as int, bits) == b
  {
    BcdByteRoundTrip(b);
    ToByteOfByte(Bcd2Bin(b));
  }

  /** A value in `lo..hi` is written as a BCD field holding it. */
  lemma BcdFieldEncode(v: int, bits: byte, lo: int, hi: int)
    requires 0 <= lo <= v <= hi <= FieldMax(bits) && hi <= 99
    ensures BcdField(Field(v, bits), bits, lo, hi)
    ensures Bcd2Bin(Field(v, bits)) as int == v
  {
    BcdFieldRoundTrip(v, bits);
  }

  /** Every time in range is written as a valid calendar image. */
  lemma EncodeCanonical(t: RtcTime)
    requires InRange(t)
    ensures Canonical(Encode(t))
  {
    BcdFieldEncode(t.sec, SECONDS_BITS, 0, 59);
    BcdFieldEncode(t.min, MINUTES_BITS, 0, 59);
    BcdFieldEncode(t.hour, HOURS_BITS, 0, 23);
    BcdFieldEncode(t.mday, DATE_BITS, 1, 31);
    BcdFieldEncode(t.mon + TM_MONTH, MONTH_BITS, 1, 12);
    BcdFieldEncode(t.year - YEAR_MIN, YEAR_BITS, 0, 99);
    OneHotRoundTrip(t.wday);
  }

  /** Round trip: what `set_time` writes, `get_time` reads back, for
   *  every time in range (the unused fields aside). */
  lemma EncodeDecode(t: RtcTime)
    requires InRange(t)
    ensures Decode(Encode(t)) == Unused(t)
  {
    BcdFieldRoundTrip(t.sec, SECONDS_BITS);
    BcdFieldRoundTrip(t.min, MINUTES_BITS);
    BcdFieldRoundTrip(t.hour, HOURS_BITS);
    BcdFieldRoundTrip(t.mday, DATE_BITS);
    BcdFieldRoundTrip(t.mon + TM_MONTH, MONTH_BITS);
    BcdFieldRoundTrip(t.year - YEAR_MIN, YEAR_BITS);
    OneHotRoundTrip(t.wday);
  }

  /** A field of a valid calendar image decodes to its BCD value and
   *  encodes back to itself. */
  lemma FieldOfImage(b: byte, bits: byte, lo: int, hi: int) returns (v: int)
    requires BcdField(b, bits, lo, hi)
    ensures v == Bcd2Bin(b & bits) as int && lo <= v <= hi && Field(v, bits) == b
  {
    BcdFieldDecode(b, bits, lo, hi);
    v := Bcd2Bin(b) as int;
  }

  /** A valid calendar image decodes to a time in range. */
  lemma DecodeInRange(regs: seq<byte>)
    requires Canonical(regs)
    ensures InRange(Decode(regs))
  {
    var _ := FieldOfImage(regs[0], SECONDS_BITS, 0, 59);
    var _ := FieldOfImage(regs[1], MINUTES_BITS, 0, 59);
    var _ := FieldOfImage(regs[2], HOURS_BITS, 0, 23);
    var _ := FieldOfImage(regs[4], DATE_BITS, 1, 31);
    var _ := FieldOfImage(regs[5], MONTH_BITS, 1, 12);
    var _ := FieldOfImage(regs[6], YEAR_BITS, 0, 99);
    WeekdayOfImage(regs[3]);
  }

  /** A seven-byte sequence is the display of its elements. */
  lemma SevenBytes(regs: seq<byte>)
    requires |regs| == 7
    ensures regs == [regs[0], regs[1], regs[2], regs[3], regs[4], regs[5], regs[6]]
  {
  }

  /** Round trip the other way: a valid calendar image decodes to a time
   *  that encodes to the same bytes. */
  lemma DecodeEncode(regs: seq<byte>)
    requires Canonical(regs)
    ensures Encode(Decode(regs)) == regs
  {
    SevenBytes(regs);
    var _ := FieldOfImage(regs[0], SECONDS_BITS, 0, 59);
    var _ := FieldOfImage(regs[1], MINUTES_BITS, 0, 59);
    var _ := FieldOfImage(regs[2], HOURS_BITS, 0, 23);
    WeekdayOfImage(regs[3]);
    var _ := FieldOfImage(regs[4], DATE_BITS, 1, 31);
    var _ := FieldOfImage(regs[5], MONTH_BITS, 1, 12);
    var _ := FieldOfImage(regs[6], YEAR_BITS, 0, 99);
  }

  // ---------------------------------------- BCD weekday, month as stored

  /** The seven data bytes `rv_8803_c7` writes: the weekday in BCD and
   *  `tm_mon` without the month offset. */
  function EncodeBcdWeekday(t: RtcTime): (regs: seq<byte>)
    ensures |regs| == 7
    ensures regs[3] & !WEEKDAY_BITS == 0 && regs[5] & !MONTH_BITS == 0
  {
    [Field(t.sec, SECONDS_BITS),
     Field(t.min, MINUTES_BITS),
     Field(t.hour, HOURS_BITS),
     Field(t.wday, WEEKDAY_BITS),
     Field(t.mday, DATE_BITS),
     Field(t.mon, MONTH_BITS),
     Field(t.year - YEAR_MIN, YEAR_BITS)]
  }

  /** `rv_8803_c7`'s `get_time`: the seven calendar fields of `prior` are
   *  replaced, the others are left as they were. */
  function DecodeBcdWeekday(regs: seq<byte>, prior: RtcTime): (t: RtcTime)
    requires |regs| == 7
    ensures t.nsec == prior.nsec && t.isdst == prior.isdst && t.yday == prior.yday
  {
    prior.(
      sec := Bcd2Bin(regs[0] & SECONDS_BITS) as int,
      min := Bcd2Bin(regs[1] & MINUTES_BITS) as int,
      hour := Bcd2Bin(regs[2] & HOURS_BITS) as int,
      wday := Bcd2Bin(regs[3] & WEEKDAY_BITS) as int,
      mday := Bcd2Bin(regs[4] & DATE_BITS) as int,
      mon := Bcd2Bin(regs[5] & MONTH_BITS) as int,
      year := Bcd2Bin(regs[6] & YEAR_BITS) as int + YEAR_MIN)
  }

  /** Round trip of the BCD-weekday encoding: reading back what was
   *  written restores every calendar field and nothing else. */
  lemma EncodeDecodeBcdWeekday(t: RtcTime, prior: RtcTime)
    requires InRange(t)
    ensures DecodeBcdWeekday(EncodeBcdWeekday(t), prior)
         == t.(nsec := prior.nsec, isdst := prior.isdst, yday := prior.yday)
  {
    BcdFieldRoundTrip(t.sec, SECONDS_BITS);
    BcdFieldRoundTrip(t.min, MINUTES_BITS);
    BcdFieldRoundTrip(t.hour, HOURS_BITS);
    BcdFieldRoundTrip(t.wday, WEEKDAY_BITS);
    BcdFieldRoundTrip(t.mday, DATE_BITS);
    BcdFieldRoundTrip(t.mon, MONTH_BITS);
    BcdFieldRoundTrip(t.year - YEAR_MIN, YEAR_BITS);
  }

  // --------------------------------------------------- the 59-second rule

  /** A reading taken while the seconds register shows 59. */
  predicate Rolls(regs: seq<byte>)
    requires |regs| >= 1
  {
    regs[0] & SECONDS_BITS == ROLLOVER
  }

  /** Which of two readings the Micro Crystal drivers decode: the first,
   *  unless it showed 59 seconds and the re-read did not. */
  function Reading(first: seq<byte>, second: seq<byte>): (r: seq<byte>)
    requires |first| == 7 && |second| == 7
    ensures r == first || r == second
    ensures Rolls(first) && !Rolls(second) ==> r == second
    ensures !Rolls(first) || Rolls(second) ==> r == first
  {
    if Rolls(first) && !Rolls(second) then second else first
  }

  /** The chosen reading shows 59 seconds exactly when both readings did:
   *  whenever the re-read moved past the roll-over, it is the one used. */
  lemma ReadingAvoidsRollover(first: seq<byte>, second: seq<byte>)
    requires |first| == 7 && |second| == 7
    ensures Rolls(Reading(first, second)) <==> Rolls(first) && Rolls(second)
  {
  }

  /** The choice `rtc_rv8803c7` makes as written: after the re-read it tests
   *  the seconds of the reading it already holds, the first one, which is
   *  known to show 59 at that point. */
  function ReadingAsWritten(first: seq<byte>, second: seq<byte>): (r: seq<byte>)
    requires |first| == 7 && |second| == 7
  {
    if Rolls(first) && !Rolls(first) then second else first
  }

  /** As written, the re-read is never used. */
  lemma AsWrittenKeepsFirst(first: seq<byte>, second: seq<byte>)
    requires |first| == 7 && |second| == 7
    ensures ReadingAsWritten(first, second) == first
  {
  }

  /** A reading at 23:59:59 followed by one at midnight: the intended rule
   *  decodes the re-read, the code as written decodes the first reading. */
  lemma AsWrittenMissesReread()
    ensures var first := [0x59, 0x59, 0x23, 0x01, 0x01, 0x01, 0x24];
            var second := [0x00, 0x00, 0x00, 0x02, 0x02, 0x01, 0x24];
            Reading(first, second) == second && ReadingAsWritten(first, second) == first &&
            ReadingAsWritten(first, second) != Reading(first, second)
  {
    var first: seq<byte> := [0x59, 0x59, 0x23, 0x01, 0x01, 0x01, 0x24];
    var second: seq<byte> := [0x00, 0x00, 0x00, 0x02, 0x02, 0x01, 0x24];
    assert Rolls(first) && !Rolls(second);
    assert first[0] != second[0];
  }
}
