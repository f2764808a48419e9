/**
 * The `rv_8803_c7` driver: the same raw eight-byte calendar write as
 * `rtc_rv8803c7`, but with the weekday in BCD and `tm_mon` stored without
 * the month offset; `get_time` reads into one buffer, which the re-read
 * overwrites, and leaves the fields the chip does not hold untouched.
 */
module Rv8803C7Bcd {
  import opened Common
  import opened Bus
  import opened Calendar
  import opened CalendarDriver
  import opened Rv8803c7

  /** The eight-byte buffer of `rv_8803_c7_set_time`, filled in place. */
  method FillFrame(t: RtcTime) returns (frame: seq<byte>)
    ensures frame == Frame(EncodeBcdWeekday(t))
  {
    var regs := new byte[8];
    regs[0] := SECONDS as byte;
    regs[1] := Field(t.sec, SECONDS_BITS);
    regs[2] := Field(t.min, MINUTES_BITS);
    regs[3] := Field(t.hour, HOURS_BITS);
    regs[4] := Field(t.wday, WEEKDAY_BITS);
    regs[5] := Field(t.mday, DATE_BITS);
    regs[6] := Field(t.mon, MONTH_BITS);
    regs[7] := Field(t.year - YEAR_MIN, YEAR_BITS);
    frame := regs[..];
    assert frame == [regs[0]] + EncodeBcdWeekday(t);
  }

  /** The transactions of `set_time`: none for a rejected time, else the
   *  frame, whose error is returned. */
  function SetTimeScript(tp: Option<RtcTime>): Script
  {
    if !Accepts(tp) then Return(-EINVAL)
    else Then(Access(Transfer(Frame(EncodeBcdWeekday(tp.value))), true), Return(0))
  }

  /** `rv_8803_c7_set_time`. */
  method SetTime(bus: RegisterFile, tp: Option<RtcTime>) returns (err: int)
    requires bus.Valid()
    modifies bus
    ensures bus.Valid()
    ensures Outcome(err, bus.State()) == Run(SetTimeScript(tp), old(bus.State()))
    ensures !Accepts(tp) ==> err == -EINVAL && bus.State() == old(bus.State())
  {
    if !Accepts(tp) {
      return -EINVAL;
    }
    var frame := FillFrame(tp.value);
    err := bus.WriteRaw(frame);
  }

  /** On a bus that does not fail, an accepted time is stored in the seven
   *  calendar registers and nothing else changes. */
  lemma SetTimeClean(tp: Option<RtcTime>, c: Chip)
    requires Good(c) && Clean(c, 1) && Accepts(tp)
    ensures Run(SetTimeScript(tp), c).err == 0
    ensures Run(SetTimeScript(tp), c).chip.regs == EncodeBcdWeekday(tp.value) + c.regs[CALENDAR_LEN..]
    ensures Run(SetTimeScript(tp), c).chip.clock == c.clock
  {
    FrameStores(EncodeBcdWeekday(tp.value), c);
  }

  /** The reading left in the single buffer: the re-read whenever there was
   *  one, whatever its seconds. */
  function Latest(first: seq<byte>, second: seq<byte>): (r: seq<byte>)
    requires |first| == 7 && |second| == 7
  {
    if Rolls(first) then second else first
  }

  /** The buffer rule agrees with the two-buffer rule of the Micro Crystal
   *  revisions except when both readings show 59 seconds: this driver then
   *  decodes the re-read, the others the first reading. */
  lemma LatestAgainstReading(first: seq<byte>, second: seq<byte>)
    requires |first| == 7 && |second| == 7
    ensures Latest(first, second) == Reading(first, second) || (Rolls(first) && Rolls(second))
    ensures Rolls(first) ==> Latest(first, second) == second
    ensures !Rolls(first) ==> Latest(first, second) == first
  {
  }

  /** `rv_8803_c7_get_time`: on success the seven calendar fields come from
   *  the latest reading and every other field is left as the caller had it;
   *  on an error the caller's time is left as it was. */
  method GetTime(bus: RegisterFile, tp: Option<RtcTime>) returns (err: int, out: Option<RtcTime>)
    requires bus.Valid()
    modifies bus
    ensures bus.Valid()
    ensures Outcome(err, bus.State()) == Run(GetTimeScript(tp, Seen(old(bus.State()), 0)), old(bus.State()))
    ensures tp.None? ==> err == -EINVAL && bus.State() == old(bus.State())
    ensures err == 0 ==>
              tp.Some? &&
              out == Some(DecodeBcdWeekday(Latest(Seen(old(bus.State()), 0), Seen(old(bus.State()), 1)), tp.value))
    ensures err != 0 ==> out == tp
  {
    if tp.None? {
      return -EINVAL, tp;
    }
    var first, regs;
    err, first, regs := ReadCalendar(bus);
    if err < 0 {
      return err, tp;
    }
    out := Some(DecodeBcdWeekday(regs, tp.value));
  }

  /** Setting the time on a stopped calendar and reading it back gives the
   *  seven calendar fields set, and the caller's other fields. */
  lemma SetThenGet(t: RtcTime, prior: RtcTime, c: Chip)
    requires Good(c) && Clean(c, 1) && c.clock == [] && InRange(t)
    ensures Run(SetTimeScript(Some(t)), c).err == 0
    ensures DecodeBcdWeekday(Latest(Seen(Run(SetTimeScript(Some(t)), c).chip, 0),
                                    Seen(Run(SetTimeScript(Some(t)), c).chip, 1)), prior)
         == t.(nsec := prior.nsec, isdst := prior.isdst, yday := prior.yday)
  {
    SetTimeClean(Some(t), c);
    var o := Run(SetTimeScript(Some(t)), c);
    assert o.chip.regs[..CALENDAR_LEN] == EncodeBcdWeekday(t);
    assert Seen(o.chip, 0) == EncodeBcdWeekday(t);
    assert Seen(o.chip, 1) == EncodeBcdWeekday(t);
    EncodeDecodeBcdWeekday(t, prior);
  }
}
