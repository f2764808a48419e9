/**
 * The `set_time` and `get_time` transactions shared by the RTC revisions
 * that drive the calendar through burst accesses: the three Micro Crystal
 * revisions hold the oscillator with the RESET bit of the control register
 * while they write the seven calendar bytes, and every revision reads the
 * calendar once more when the first reading shows 59 seconds.
 *
 * The scripts take the bytes they write as parameters, so that what a run
 * of them does is proved once, on bytes, and the bit operations that
 * compute those bytes are proved apart.
 */
module CalendarDriver {
  import opened Common
  import opened Bus
  import opened Calendar

  /** Control register bit 0: holds the prescaler while set. */
  const RESET_BIT: byte := 0x01

  // ------------------------------------------------------------ set_time

  /** The control byte written to hold the prescaler. */
  function Held(ctrl: byte): byte
  {
    ctrl | RESET_BIT
  }

  /** The control byte written back to release it: the held byte with the
   *  RESET bit cleared again. */
  function Released(ctrl: byte): byte
  {
    Held(ctrl) & !RESET_BIT
  }

  /** Holding sets the RESET bit; releasing clears it and gives back every
   *  other bit of the control byte as read. */
  lemma HoldRelease(ctrl: byte)
    ensures Held(ctrl) & RESET_BIT == RESET_BIT
    ensures Held(ctrl) & !RESET_BIT == ctrl & !RESET_BIT
    ensures Released(ctrl) == ctrl & !RESET_BIT
  {
  }

  /** Read the control register, write `held` to it, write the calendar
   *  bytes `img` (the result of that write is ignored), write `released`
   *  and return 0. */
  function HeldScript(img: seq<byte>, held: byte, released: byte): Script
  {
    Then(Access(Read(CONTROL, 1), true),
    Then(Access(Write(CONTROL, [held]), true),
    Then(Access(Write(SECONDS, img), false),
    Then(Access(Write(CONTROL, [released]), true),
    Return(0)))))
  }

  /** The transactions of `set_time`, given the control byte it will read. */
  function SetTimeScript(tp: Option<RtcTime>, ctrl: byte): Script
  {
    if !Accepts(tp) then Return(-EINVAL)
    else HeldScript(Encode(tp.value), Held(ctrl), Released(ctrl))
  }

  /** `set_time` of the RESET-bit revisions. A pointer that is NULL or a year
   *  outside 2000..2099 gives -EINVAL before any bus access. */
  method SetTimeHeld(bus: RegisterFile, tp: Option<RtcTime>) returns (err: int)
    requires bus.Valid()
    modifies bus
    ensures bus.Valid()
    ensures Outcome(err, bus.State()) == Run(SetTimeScript(tp, old(bus.regs[CONTROL])), old(bus.State()))
    ensures !Accepts(tp) ==> err == -EINVAL && bus.State() == old(bus.State())
  {
    if !Accepts(tp) {
      return -EINVAL;
    }
    var regs := Encode(tp.value);
    err := HoldAndWrite(bus, regs);
  }

  /** The bus part of `set_time`: hold, write `regs`, release. */
  method HoldAndWrite(bus: RegisterFile, regs: seq<byte>) returns (err: int)
    requires bus.Valid()
    modifies bus
    ensures bus.Valid()
    ensures Outcome(err, bus.State()) ==
      Run(HeldScript(regs, Held(old(bus.regs[CONTROL])), Released(old(bus.regs[CONTROL]))), old(bus.State()))
  {
    ghost var s0 := bus.State();
    ghost var c0 := s0.regs[CONTROL];
    ghost var s3 := Then(Access(Write(CONTROL, [Released(c0)]), true), Return(0));
    ghost var s2 := Then(Access(Write(SECONDS, regs), false), s3);
    ghost var s1 := Then(Access(Write(CONTROL, [Held(c0)]), true), s2);
    var control;
    ReadPlain(s0, CONTROL, 1);
    err, control := bus.BurstRead(CONTROL, 1);
    if err < 0 {
      return;
    }
    assert control == [c0];
    assert Run(HeldScript(regs, Held(c0), Released(c0)), s0) == Run(s1, bus.State());
    var held := Held(control[0]);
    ghost var w1 := bus.State();
    err := bus.BurstWrite(CONTROL, [held]);
    if err < 0 {
      return;
    }
    assert Run(s1, w1) == Run(s2, bus.State());
    ghost var w2 := bus.State();
    var _ := bus.BurstWrite(SECONDS, regs);
    assert Run(s2, w2) == Run(s3, bus.State());
    ghost var w3 := bus.State();
    var released := held & !RESET_BIT;
    err := bus.BurstWrite(CONTROL, [released]);
    assert Run(s3, w3) == Outcome(err, bus.State());
  }

  /** On a bus that serves its four transactions, the held write stores
   *  the calendar bytes, then the released control byte, and the log shows
   *  the control read, the hold, the calendar write and the release in
   *  that order. */
  lemma HeldClean(img: seq<byte>, held: byte, released: byte, c: Chip)
    requires Good(c) && Clean(c, 4) && |img| == CALENDAR_LEN
    ensures Run(HeldScript(img, held, released), c) ==
      Outcome(0, c.(regs := Store(Store(Store(c.regs, CONTROL, [held]), SECONDS, img), CONTROL, [released]),
                    faults := Tail(Tail(Tail(Tail(c.faults)))),
                    trace := c.trace + [Ok(Read(CONTROL, 1), Reply(c.regs, Read(CONTROL, 1)))]
                             + [Ok(Write(CONTROL, [held]), [])] + [Ok(Write(SECONDS, img), [])]
                             + [Ok(Write(CONTROL, [released]), [])]))
  {
    var s3 := Then(Access(Write(CONTROL, [released]), true), Return(0));
    var s2 := Then(Access(Write(SECONDS, img), false), s3);
    var s1 := Then(Access(Write(CONTROL, [held]), true), s2);
    var s0 := Then(Access(Read(CONTROL, 1), true), s1);
    assert Accesses(s3) == 1;
    assert Accesses(s1) == 3;
    assert Accesses(s0) == 4;
    assert Wf(s2);
    assert Wf(s0);
    assert Code(s3) == 0;
    assert Code(s2) == 0;
    assert Code(s0) == 0;
    RunClean(s0, c);
    ServeRead(CONTROL, 1, true, s1, c);
    var c1 := c.(faults := Tail(c.faults), trace := c.trace + [Ok(Read(CONTROL, 1), Reply(c.regs, Read(CONTROL, 1)))]);
    ServeWrite(CONTROL, [held], true, s2, c1);
    var c2 := c1.(regs := Store(c1.regs, CONTROL, [held]), faults := Tail(c1.faults),
                  trace := c1.trace + [Ok(Write(CONTROL, [held]), [])]);
    ServeWrite(SECONDS, img, false, s3, c2);
    var c3 := c2.(regs := Store(c2.regs, SECONDS, img), faults := Tail(c2.faults),
                  trace := c2.trace + [Ok(Write(SECONDS, img), [])]);
    ServeWrite(CONTROL, [released], true, Return(0), c3);
  }

  /** When only the calendar write fails, the error is ignored: the script
   *  still returns 0, the calendar keeps its old bytes and the control
   *  register ends with the released byte. */
  lemma HeldIgnoresWriteError(img: seq<byte>, held: byte, released: byte, c: Chip)
    requires Good(c) && |img| == CALENDAR_LEN && |c.faults| >= 4
    requires c.faults[0] >= 0 && c.faults[1] >= 0 && c.faults[2] < 0 && c.faults[3] >= 0
    ensures Run(HeldScript(img, held, released), c).err == 0
    ensures Run(HeldScript(img, held, released), c).chip.regs == Store(Store(c.regs, CONTROL, [held]), CONTROL, [released])
  {
    var s3 := Then(Access(Write(CONTROL, [released]), true), Return(0));
    var s2 := Then(Access(Write(SECONDS, img), false), s3);
    var s1 := Then(Access(Write(CONTROL, [held]), true), s2);
    var c1 := Fire(c, Read(CONTROL, 1)).chip;
    assert Run(HeldScript(img, held, released), c) == Run(s1, c1);
    var c2 := Fire(c1, Write(CONTROL, [held])).chip;
    assert Run(s1, c1) == Run(s2, c2);
    var c3 := Fire(c2, Write(SECONDS, img)).chip;
    assert Run(s2, c2) == Run(s3, c3);
    assert c3.regs == c2.regs;
    assert Head(c3.faults) == c.faults[3];
    StepLast(c3, Write(CONTROL, [released]));
  }

  /** Three register writes in the `set_time` order leave the new calendar,
   *  the registers between calendar and control as they were, and the last
   *  control byte. */
  lemma HoldWriteRelease(regs: seq<byte>, img: seq<byte>, held: byte, released: byte)
    requires |regs| == REG_COUNT && |img| == CALENDAR_LEN
    ensures Store(Store(Store(regs, CONTROL, [held]), SECONDS, img), CONTROL, [released])
      == img + regs[CALENDAR_LEN..CONTROL] + [released]
  {
  }

  /** With a bus that does not fail, `set_time` stores the encoded time,
   *  leaves the control register with the RESET bit clear and every other
   *  bit as read and changes no other register. */
  lemma SetTimeClean(tp: Option<RtcTime>, c: Chip)
    requires Good(c) && Clean(c, 4) && Accepts(tp)
    ensures Run(SetTimeScript(tp, c.regs[CONTROL]), c).err == 0
    ensures Run(SetTimeScript(tp, c.regs[CONTROL]), c).chip.regs
      == Encode(tp.value) + c.regs[CALENDAR_LEN..CONTROL] + [c.regs[CONTROL] & !RESET_BIT]
    ensures Run(SetTimeScript(tp, c.regs[CONTROL]), c).chip.clock == c.clock
  {
    var ctrl := c.regs[CONTROL];
    HeldClean(Encode(tp.value), Held(ctrl), Released(ctrl), c);
    HoldWriteRelease(c.regs, Encode(tp.value), Held(ctrl), Released(ctrl));
    HoldRelease(ctrl);
  }

  /** The calendar write's error is ignored: when only that write fails,
   *  `set_time` still reports success, the calendar keeps its old bytes and
   *  the clock is released. */
  lemma SetTimeIgnoresCalendarError(tp: Option<RtcTime>, c: Chip)
    requires Good(c) && Accepts(tp) && |c.faults| >= 4
    requires c.faults[0] >= 0 && c.faults[1] >= 0 && c.faults[2] < 0 && c.faults[3] >= 0
    ensures Run(SetTimeScript(tp, c.regs[CONTROL]), c).err == 0
    ensures Run(SetTimeScript(tp, c.regs[CONTROL]), c).chip.regs
      == c.regs[CONTROL := c.regs[CONTROL] & !RESET_BIT]
  {
    var ctrl := c.regs[CONTROL];
    HeldIgnoresWriteError(Encode(tp.value), Held(ctrl), Released(ctrl), c);
    HoldRelease(ctrl);
    assert Store(Store(c.regs, CONTROL, [Held(ctrl)]), CONTROL, [Released(ctrl)])
      == c.regs[CONTROL := Released(ctrl)];
  }

  // ------------------------------------------------------------ get_time

  /** A calendar read returns the calendar's next reading. */
  lemma SeenFirst(c: Chip)
    requires Good(c)
    ensures Data(c, Read(SECONDS, CALENDAR_LEN)) == Seen(c, 0)
  {
  }

  /** After a calendar read, the readings still to come are the later ones. */
  lemma SeenNext(c: Chip, k: nat)
    requires Good(c)
    ensures Seen(Fire(c, Read(SECONDS, CALENDAR_LEN)).chip, k) == Seen(c, k + 1)
  {
  }

  /** The transactions of the calendar read, given the first reading: a
   *  second read only when the first shows 59 seconds. */
  function ReadScript(first: Image): Script
  {
    Then(Access(Read(SECONDS, CALENDAR_LEN), true),
      if Rolls(first) then Then(Access(Read(SECONDS, CALENDAR_LEN), true), Return(0))
      else Return(0))
  }

  /** The reads every `get_time` makes: the first reading, and the latest
   *  one (the re-read when the first showed 59 seconds, else the first). */
  method ReadCalendar(bus: RegisterFile) returns (err: int, first: seq<byte>, latest: seq<byte>)
    requires bus.Valid()
    modifies bus
    ensures bus.Valid()
    ensures Outcome(err, bus.State()) == Run(ReadScript(Seen(old(bus.State()), 0)), old(bus.State()))
    ensures err <= 0
    ensures err == 0 ==> first == Seen(old(bus.State()), 0)
    ensures err == 0 ==> latest == if Rolls(Seen(old(bus.State()), 0)) then Seen(old(bus.State()), 1) else first
  {
    ghost var s0 := bus.State();
    SeenFirst(s0);
    err, first := bus.BurstRead(SECONDS, CALENDAR_LEN);
    latest := first;
    if err < 0 {
      return;
    }
    ghost var s1 := bus.State();
    assert first == Seen(s0, 0);
    if Rolls(first) {
      SeenFirst(s1);
      SeenNext(s0, 0);
      err, latest := bus.BurstRead(SECONDS, CALENDAR_LEN);
      assert Run(ReadScript(Seen(s0, 0)), s0) == Run(Then(Access(Read(SECONDS, CALENDAR_LEN), true), Return(0)), s1);
    }
  }

  /** The transactions of `get_time`: none for a NULL pointer. */
  function GetTimeScript(tp: Option<RtcTime>, first: Image): Script
  {
    if tp.None? then Return(-EINVAL) else ReadScript(first)
  }

  /** `get_time` of the Micro Crystal revisions: the re-read is used when it
   *  no longer shows 59 seconds, and the unused fields are reset. On an
   *  error the caller's time is left as it was. */
  method GetTimeReread(bus: RegisterFile, tp: Option<RtcTime>) returns (err: int, out: Option<RtcTime>)
    requires bus.Valid()
    modifies bus
    ensures bus.Valid()
    ensures Outcome(err, bus.State()) == Run(GetTimeScript(tp, Seen(old(bus.State()), 0)), old(bus.State()))
    ensures tp.None? ==> err == -EINVAL && bus.State() == old(bus.State())
    ensures err == 0 ==> out == Some(Decode(Reading(Seen(old(bus.State()), 0), Seen(old(bus.State()), 1))))
    ensures err != 0 ==> out == tp
  {
    if tp.None? {
      return -EINVAL, tp;
    }
    ghost var s0 := bus.State();
    var first, latest;
    err, first, latest := ReadCalendar(bus);
    if err < 0 {
      return err, tp;
    }
    var correct := if Rolls(first) && !Rolls(latest) then latest else first;
    out := Some(Decode(correct));
  }

  /** Setting the time on a stopped calendar and reading it back gives the
   *  time set, the unused fields aside. */
  lemma SetThenGet(t: RtcTime, c: Chip)
    requires Good(c) && Clean(c, 4) && c.clock == []
    requires InRange(t)
    ensures Run(SetTimeScript(Some(t), c.regs[CONTROL]), c).err == 0
    ensures Decode(Reading(Seen(Run(SetTimeScript(Some(t), c.regs[CONTROL]), c).chip, 0),
                           Seen(Run(SetTimeScript(Some(t), c.regs[CONTROL]), c).chip, 1))) == Unused(t)
  {
    SetTimeClean(Some(t), c);
    var o := Run(SetTimeScript(Some(t), c.regs[CONTROL]), c);
    assert o.chip.regs[..CALENDAR_LEN] == Encode(t);
    assert Seen(o.chip, 0) == Encode(t);
    EncodeDecode(t);
  }
}
