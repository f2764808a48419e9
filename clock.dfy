/**
 * The clock output (CLKOUT) of the RV-8803, as both clock-control drivers
 * drive it: its frequency is FD, bits 3:2 of the extension register. The
 * driver under the multi-function device and the one under the RTC device
 * reach the chip over different bus handles but do the same transactions.
 */
module Clock {
  import opened Common
  import opened Bus

  /** FD, the clock output frequency select. */
  const FREQUENCY_SHIFT: bv8 := 2
  const FREQUENCY_MASK: byte := 0x0C
  /** The rates the drivers accept: 32768 Hz, 1024 Hz and 1 Hz. */
  const FREQUENCY_32768_HZ: nat := 0x00
  const FREQUENCY_1024_HZ: nat := 0x01
  const FREQUENCY_1_HZ: nat := 0x02

  /** The rate argument, a pointer-sized unsigned integer, modelled on a
   *  32-bit target. */
  type UIntPtr = x: nat | x < 0x1_0000_0000

  /** `rate << 2` in the pointer-sized unsigned type. */
  function Shifted(rate: UIntPtr): nat
  {
    (rate * 4) % 0x1_0000_0000
  }

  /** The test that refuses a rate as already selected. */
  predicate Already(ext: byte, rate: UIntPtr)
  {
    (ext & FREQUENCY_MASK) as nat == Shifted(rate)
  }

  /** The rate `get_rate` reports for an extension byte. */
  function RateOf(ext: byte): (rate: nat)
    ensures rate <= 3
  {
    ((ext & FREQUENCY_MASK) >> FREQUENCY_SHIFT) as nat
  }

  predicate Supported(rate: UIntPtr)
  {
    rate == FREQUENCY_32768_HZ || rate == FREQUENCY_1024_HZ || rate == FREQUENCY_1_HZ
  }

  /** The extension byte written for a supported rate: FD cleared, then the
   *  rate placed in it. */
  function Selected(ext: byte, rate: UIntPtr): byte
    requires Supported(rate)
  {
    (ext & !FREQUENCY_MASK) | ((ToByte(rate) << FREQUENCY_SHIFT) & FREQUENCY_MASK)
  }

  /** For every rate FD can hold the "already" test is exactly "FD holds
   *  this rate". */
  lemma AlreadyIffSelected(ext: byte, rate: UIntPtr)
    requires rate <= 3
    ensures Already(ext, rate) <==> RateOf(ext) == rate
  {
    var f := ext & FREQUENCY_MASK;
    FieldValues(f);
  }

  /** The four values FD can take, as the two tests see them. */
  lemma FieldValues(f: byte)
    requires f & FREQUENCY_MASK == f
    ensures f == 0x00 || f == 0x04 || f == 0x08 || f == 0x0C
    ensures (f >> FREQUENCY_SHIFT) as nat * 4 == f as nat
  {
  }

  /** A pointer-sized rate whose shift wraps to 0 passes the "already" test
   *  while 32768 Hz is selected, so it is refused with -EALREADY rather
   *  than as unsupported. */
  lemma WrappedRateAlready(ext: byte)
    requires ext & FREQUENCY_MASK == 0
    ensures !Supported(0x4000_0000) && Already(ext, 0x4000_0000)
  {
  }

  /** Selecting a supported rate puts it in FD and keeps every other bit,
   *  so `get_rate` reports it and a second selection is refused as
   *  already done. */
  lemma SelectedBits(ext: byte, rate: UIntPtr)
    requires Supported(rate)
    ensures RateOf(Selected(ext, rate)) == rate
    ensures Selected(ext, rate) & !FREQUENCY_MASK == ext & !FREQUENCY_MASK
    ensures Already(Selected(ext, rate), rate)
  {
    SmallRate(rate);
    AlreadyIffSelected(Selected(ext, rate), rate);
  }

  /** The byte a supported rate converts to, and its place in FD. */
  lemma SmallRate(rate: UIntPtr)
    requires Supported(rate)
    ensures ToByte(rate) as nat == rate
    ensures (((ToByte(rate) << FREQUENCY_SHIFT) & FREQUENCY_MASK) >> FREQUENCY_SHIFT) as nat == rate
  {
    ModSmall(rate);
  }

  /** The transactions of `set_rate` when the extension register holds
   *  `ext`: the read, whose error is returned; -EALREADY when FD already
   *  holds the rate; -ENOTSUP for an unsupported rate; else the write of
   *  the whole byte, whose error is returned. */
  function SetRateScript(ext: byte, rate: UIntPtr): Script
  {
    Then(Access(Read(EXTENSION, 1), true),
      if Already(ext, rate) then Return(-EALREADY)
      else if !Supported(rate) then Return(-ENOTSUP)
      else Then(Access(Write(EXTENSION, [Selected(ext, rate)]), true), Return(0)))
  }

  /** `rv8803_clk_set_rate`: a read of the extension register and, when the
   *  rate is new and supported, a write of it with FD replaced. */
  method SetRate(bus: RegisterFile, rate: UIntPtr) returns (err: int)
    requires bus.Valid()
    modifies bus
    ensures bus.Valid()
    ensures Outcome(err, bus.State()) == Run(SetRateScript(old(bus.regs[EXTENSION]), rate), old(bus.State()))
  {
    ghost var c0 := bus.State();
    ReadPlain(c0, EXTENSION, 1);
    var reg;
    err, reg := bus.ReadByte(EXTENSION);
    if err < 0 {
      return err;
    }
    assert reg == c0.regs[EXTENSION];
    if Already(reg, rate) {
      return -EALREADY;
    }
    if !Supported(rate) {
      return -ENOTSUP;
    }
    // each case of the switch places its own rate in FD
    reg := (reg & !FREQUENCY_MASK) | ((ToByte(rate) << FREQUENCY_SHIFT) & FREQUENCY_MASK);
    ghost var c1 := bus.State();
    StepLast(c1, Write(EXTENSION, [reg]));
    err := bus.WriteByte(EXTENSION, reg);
  }

  /** On a bus that does not fail, a new supported rate is stored in FD of
   *  the extension register and nothing else changes. */
  lemma SetRateClean(rate: UIntPtr, c: Chip)
    requires Good(c) && Clean(c, 2) && Supported(rate) && RateOf(c.regs[EXTENSION]) != rate
    ensures Run(SetRateScript(c.regs[EXTENSION], rate), c).err == 0
    ensures Run(SetRateScript(c.regs[EXTENSION], rate), c).chip.regs
         == c.regs[EXTENSION := Selected(c.regs[EXTENSION], rate)]
  {
    var ext := c.regs[EXTENSION];
    AlreadyIffSelected(ext, rate);
    var rest := Then(Access(Write(EXTENSION, [Selected(ext, rate)]), true), Return(0));
    assert SetRateScript(ext, rate) == Then(Access(Read(EXTENSION, 1), true), rest);
    assert Accesses(rest) == 1;
    assert Wf(rest);
    assert Code(Return(0)) == 0;
    assert Code(rest) == Code(Return(0));
    RunClean(SetRateScript(ext, rate), c);
    ServeRead(EXTENSION, 1, true, rest, c);
    var c1 := c.(faults := Tail(c.faults), trace := c.trace + [Ok(Read(EXTENSION, 1), Reply(c.regs, Read(EXTENSION, 1)))]);
    ServeWrite(EXTENSION, [Selected(ext, rate)], true, Return(0), c1);
  }

  /** Whenever the read succeeds and FD already holds the rate, nothing is
   *  written and -EALREADY is returned, whatever the later outcomes. */
  lemma SetRateAgain(rate: UIntPtr, c: Chip)
    requires Good(c) && Head(c.faults) >= 0 && rate <= 3 && RateOf(c.regs[EXTENSION]) == rate
    ensures Run(SetRateScript(c.regs[EXTENSION], rate), c).err == -EALREADY
    ensures Run(SetRateScript(c.regs[EXTENSION], rate), c).chip.regs == c.regs
  {
    AlreadyIffSelected(c.regs[EXTENSION], rate);
  }

  /** `rv8803_clk_get_rate`: the rate is written only when the read
   *  succeeds; `prior` is what the caller's variable held. */
  method GetRate(bus: RegisterFile, prior: nat) returns (err: int, rate: nat)
    requires bus.Valid()
    modifies bus
    ensures bus.Valid()
    ensures Outcome(err, bus.State()) == Fire(old(bus.State()), Read(EXTENSION, 1))
    ensures err == 0 ==> rate == RateOf(old(bus.regs[EXTENSION]))
    ensures err != 0 ==> rate == prior
  {
    ReadPlain(bus.State(), EXTENSION, 1);
    var reg;
    err, reg := bus.ReadByte(EXTENSION);
    if err < 0 {
      return err, prior;
    }
    reg := reg & FREQUENCY_MASK;
    rate := (reg >> FREQUENCY_SHIFT) as nat;
    return 0, rate;
  }

  /** `rv8803_clk_on` of the driver under the RTC device. */
  function On(): (err: int)
    ensures err == -ENOTSUP
  {
    -ENOTSUP
  }

  /** `rv8803_clk_off` of the driver under the RTC device. */
  function Off(): (err: int)
    ensures err == -ENOTSUP
  {
    -ENOTSUP
  }
}
