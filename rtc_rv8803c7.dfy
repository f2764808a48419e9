/**
 * The `rtc_rv8803c7` driver: `set_time` sends the seven calendar bytes in
 * one raw write behind the register address, with no RESET hold, and
 * `get_time` keeps two reading buffers and a pointer to the one it
 * decodes.
 */
module Rv8803c7 {
  import opened Common
  import opened Bus
  import opened Calendar
  import opened CalendarDriver

  /** The frame of a raw calendar write: the seconds register address, then
   *  the seven calendar bytes. */
  function Frame(img: seq<byte>): (frame: seq<byte>)
  {
    [SECONDS as byte] + img
  }

  /** A served frame stores its calendar bytes from the seconds register
   *  on and changes no other register. */
  lemma FrameStores(img: seq<byte>, c: Chip)
    requires Good(c) && Clean(c, 1) && |img| == CALENDAR_LEN
    ensures |Frame(img)| == 1 + CALENDAR_LEN && Frame(img)[0] == SECONDS as byte
    ensures Fire(c, Transfer(Frame(img))).err == 0
    ensures Fire(c, Transfer(Frame(img))).chip.regs == img + c.regs[CALENDAR_LEN..]
    ensures Fire(c, Transfer(Frame(img))).chip.clock == c.clock
  {
    assert Frame(img)[1..] == img;
  }

  /** The transactions of `set_time`: none for a rejected time, else the
   *  frame, whose error is returned. */
  function SetTimeScript(tp: Option<RtcTime>): Script
  {
    if !Accepts(tp) then Return(-EINVAL)
    else Then(Access(Transfer(Frame(Encode(tp.value))), true), Return(0))
  }

  /** The eight-byte buffer of `rv8803c7_set_time`, filled in place. */
  method FillFrame(t: RtcTime) returns (frame: seq<byte>)
    ensures frame == Frame(Encode(t))
  {
    var regs := new byte[8];
    regs[0] := SECONDS as byte;
    regs[1] := Field(t.sec, SECONDS_BITS);
    regs[2] := Field(t.min, MINUTES_BITS);
    regs[3] := Field(t.hour, HOURS_BITS);
    regs[4] := OneHot(t.wday) & WEEKDAY_BITS;
    regs[5] := Field(t.mday, DATE_BITS);
    regs[6] := Field(t.mon + TM_MONTH, MONTH_BITS);
    regs[7] := Field(t.year - YEAR_MIN, YEAR_BITS);
    frame := regs[..];
    assert frame == [regs[0]] + Encode(t);
  }

  /** `rv8803c7_set_time`: the eight-byte buffer is filled in place and sent
   *  as one write. */
  method SetTime(bus: RegisterFile, tp: Option<RtcTime>) returns (err: int)
    requires bus.Valid()
    modifies bus
    ensures bus.Valid()
    ensures Outcome(err, bus.State()) == Run(SetTimeScript(tp), old(bus.State()))
    ensures !Accepts(tp) ==> err == -EINVAL && bus.State() == old(bus.State())
  {
    if !Accepts(tp) {
      return -EINVAL;
    }
    var frame := FillFrame(tp.value);
    err := bus.WriteRaw(frame);
  }

  /** On a bus that does not fail, an accepted time is stored in the seven
   *  calendar registers and nothing else changes. */
  lemma SetTimeClean(tp: Option<RtcTime>, c: Chip)
    requires Good(c) && Clean(c, 1) && Accepts(tp)
    ensures Run(SetTimeScript(tp), c).err == 0
    ensures Run(SetTimeScript(tp), c).chip.regs == Encode(tp.value) + c.regs[CALENDAR_LEN..]
    ensures Run(SetTimeScript(tp), c).chip.clock == c.clock
  {
    FrameStores(Encode(tp.value), c);
  }

  /** `rv8803c7_get_time` as written: after the re-read the test looks at
   *  the buffer `correct` still points to, the first reading, so the
   *  decoded time always comes from the first reading. */
  method GetTimeAsWritten(bus: RegisterFile, tp: Option<RtcTime>) returns (err: int, out: Option<RtcTime>)
    requires bus.Valid()
    modifies bus
    ensures bus.Valid()
    ensures Outcome(err, bus.State()) == Run(GetTimeScript(tp, Seen(old(bus.State()), 0)), old(bus.State()))
    ensures tp.None? ==> err == -EINVAL && bus.State() == old(bus.State())
    ensures err == 0 ==> out == Some(Decode(Seen(old(bus.State()), 0)))
    ensures err != 0 ==> out == tp
  {
    if tp.None? {
      return -EINVAL, tp;
    }
    var regs1, regs2;
    err, regs1, regs2 := ReadCalendar(bus);
    if err < 0 {
      return err, tp;
    }
    var correct := regs1;
    if Rolls(regs1) {
      if !Rolls(correct) {
        correct := regs2;
      }
    }
    out := Some(Decode(correct));
  }

  /** Setting the time on a stopped calendar and reading it back gives the
   *  time set, the unused fields aside: the first reading, the one the code
   *  as written decodes, is then the time just stored. */
  lemma SetThenGet(t: RtcTime, c: Chip)
    requires Good(c) && Clean(c, 1) && c.clock == [] && InRange(t)
    ensures Run(SetTimeScript(Some(t)), c).err == 0
    ensures Decode(Seen(Run(SetTimeScript(Some(t)), c).chip, 0)) == Unused(t)
  {
    SetTimeClean(Some(t), c);
    var o := Run(SetTimeScript(Some(t)), c);
    assert o.chip.regs[..CALENDAR_LEN] == Encode(t);
    assert Seen(o.chip, 0) == Encode(t);
    EncodeDecode(t);
  }
}
