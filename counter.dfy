/**
 * The countdown timer of the RV-8803 as the Zephyr counter driver runs it:
 * TE (extension bit 4) starts it, TD (extension bits 1:0) selects its
 * clock, TC0/TC1 hold a 12-bit reload value, and TF (flag bit 4) / TIE
 * (control bit 4) are its interrupt flag and enable.
 */
module Counter {
  import opened Common
  import opened Bus

  /** Bit 4 is TE in the extension register, TIE in the control register
   *  and TF in the flag register. */
  const COUNTER_BIT: byte := 0x10
  const ENABLE_COUNTER: byte := 0x10
  const DISABLE_COUNTER: byte := 0x00
  /** TD, the countdown clock select. */
  const FREQUENCY_MASK: byte := 0x03
  /** The bits of TC1 that belong to the reload value. */
  const TC1_MASK: byte := 0x0F
  /** The largest reload value, as the driver advertises it. */
  const MAX_TOP_VALUE: nat := 0x0FFF

  // ------------------------------------------------------- tick encoding

  /** The reload values `set_top_value` accepts as written: not 0 and
   *  below `MAX_TOP_VALUE`. */
  predicate TicksAsWritten(ticks: nat)
  {
    !(ticks <= 0 || ticks >= MAX_TOP_VALUE)
  }

  /** The reload values a 12-bit counter holds, up to the advertised
   *  maximum: 1..4095. */
  predicate TicksValid(ticks: nat)
  {
    0 < ticks <= MAX_TOP_VALUE
  }

  /** The comparison as written refuses the advertised maximum, a value the
   *  registers hold and give back. */
  lemma AsWrittenRefusesMaxTop()
    ensures !TicksAsWritten(MAX_TOP_VALUE) && TicksValid(MAX_TOP_VALUE)
    ensures TopOf(Tc0(MAX_TOP_VALUE), Tc1(0, MAX_TOP_VALUE)) == MAX_TOP_VALUE
  {
    assert Tc0(MAX_TOP_VALUE) == 0xFF;
    assert Tc1(0, MAX_TOP_VALUE) == 0x0F;
  }

  /** Elsewhere the two checks agree. */
  lemma AsWrittenOtherwiseAgrees(ticks: nat)
    requires ticks != MAX_TOP_VALUE
    ensures TicksAsWritten(ticks) <==> TicksValid(ticks)
  {
  }

  /** `ticks & 0xFF`, the byte written to TC0. */
  function Tc0(ticks: nat): byte
  {
    ToByte(ticks)
  }

  /** `(ticks >> 8) & 0x0F`, the TC1 nibble. */
  function Tc1Bits(ticks: nat): byte
  {
    ToByte((ticks / 256) % 16)
  }

  /** `(ticks >> 8) & 0x0F`, stored in the low nibble of TC1 by a masked
   *  write over the byte `prior` held. */
  function Tc1(prior: byte, ticks: nat): byte
  {
    Masked(prior, TC1_MASK, Tc1Bits(ticks))
  }

  /** `get_top_value`'s reassembly of TC0 and TC1. */
  function TopOf(tc0: byte, tc1: byte): (top: nat)
    ensures top <= MAX_TOP_VALUE
  {
    (tc1 & TC1_MASK) as nat * 256 + tc0 as nat
  }

  /** Every value that fits in 12 bits is given back by `get_top_value`,
   *  whatever the high nibble of TC1 held; the high nibble is kept. */
  lemma TopRoundTrip(ticks: nat, prior: byte)
    requires ticks <= MAX_TOP_VALUE
    ensures TopOf(Tc0(ticks), Tc1(prior, ticks)) == ticks
    ensures Tc1(prior, ticks) & !TC1_MASK == prior & !TC1_MASK
  {
    var hi := Tc1Bits(ticks);
    SmallByte(ticks % 256);
    SmallByte((ticks / 256) % 16);
    assert hi as nat == ticks / 256;
    MaskedBits(prior, TC1_MASK, hi);
    LowNibble(hi);
    assert Tc1(prior, ticks) & TC1_MASK == hi;
  }

  lemma SmallByte(v: int)
    requires 0 <= v < 256
    ensures ToByte(v) as int == v
  {
    ModSmall(v);
  }

  lemma LowNibble(b: byte)
    requires b < 16
    ensures b & TC1_MASK == b
  {
  }

  /** The TD code of a countdown frequency in Hz. */
  function FrequencyCode(freq: nat): (code: Option<byte>)
    ensures code.Some? ==> code.value <= 2
    ensures code.None? <==> freq != 4096 && freq != 64 && freq != 1
  {
    if freq == 4096 then Some(0x00)
    else if freq == 64 then Some(0x01)
    else if freq == 1 then Some(0x02)
    else None
  }

  // ------------------------------------------------------ start and stop

  /** `rv8803_cnt_start`: TE to 1. */
  method Start(bus: RegisterFile) returns (err: int)
    requires bus.Valid()
    modifies bus
    ensures bus.Valid()
    ensures Outcome(err, bus.State()) == Fire(old(bus.State()), Update(EXTENSION, COUNTER_BIT, ENABLE_COUNTER))
  {
    err := bus.UpdateByte(EXTENSION, COUNTER_BIT, ENABLE_COUNTER);
    if err < 0 {
      return err;
    }
    return 0;
  }

  /** `rv8803_cnt_stop`: TE to 0. */
  method Stop(bus: RegisterFile) returns (err: int)
    requires bus.Valid()
    modifies bus
    ensures bus.Valid()
    ensures Outcome(err, bus.State()) == Fire(old(bus.State()), Update(EXTENSION, COUNTER_BIT, DISABLE_COUNTER))
  {
    err := bus.UpdateByte(EXTENSION, COUNTER_BIT, DISABLE_COUNTER);
    if err < 0 {
      return err;
    }
    return 0;
  }

  /** Start sets TE and stop clears it; neither touches another bit, so a
   *  start followed by a stop gives back the extension byte with TE
   *  clear. */
  lemma StartStopBits(ext: byte)
    ensures Masked(ext, COUNTER_BIT, ENABLE_COUNTER) == ext | COUNTER_BIT
    ensures Masked(ext, COUNTER_BIT, DISABLE_COUNTER) == ext & !COUNTER_BIT
    ensures Masked(Masked(ext, COUNTER_BIT, ENABLE_COUNTER), COUNTER_BIT, DISABLE_COUNTER) == ext & !COUNTER_BIT
  {
  }

  // ------------------------------------------------------ set_top_value

  /** TE, TIE and TF to 0, each error returned at once, then `rest`. */
  function DisableScript(rest: Script): Script
  {
    Then(Access(Update(EXTENSION, COUNTER_BIT, DISABLE_COUNTER), true),
    Then(Access(Update(CONTROL, COUNTER_BIT, DISABLE_COUNTER), true),
    Then(Access(Update(FLAG, COUNTER_BIT, DISABLE_COUNTER), true),
    rest)))
  }

  /** TD, TC0 and the TC1 nibble, then TIE when the interrupt is used. */
  function ConfigureScript(code: byte, tc0: byte, tc1: byte, irq: bool): Script
  {
    Then(Access(Update(EXTENSION, FREQUENCY_MASK, code), true),
    Then(Access(Write(TIMER_COUNTER_0, [tc0]), true),
    Then(Access(Update(TIMER_COUNTER_1, TC1_MASK, tc1), true),
      if irq then Then(Access(Update(CONTROL, COUNTER_BIT, ENABLE_COUNTER), true), Return(0))
      else Return(0))))
  }

  /** The transactions of `set_top_value`: nothing for a refused reload
   *  value; the three disables; -EINVAL for an unknown frequency, after
   *  the disables; then the configuration. */
  function SetTopScript(ticks: nat, freq: nat, irq: bool): Script
  {
    if !TicksValid(ticks) then Return(-EINVAL)
    else DisableScript(
      match FrequencyCode(freq)
      case None => Return(-EINVAL)
      case Some(code) => ConfigureScript(code, Tc0(ticks), Tc1Bits(ticks), irq))
  }

  /** The three disables of `set_top_value`; `rest` is what follows them. */
  method Disable(bus: RegisterFile, ghost rest: Script) returns (err: int)
    requires bus.Valid()
    modifies bus
    ensures bus.Valid()
    ensures err < 0 ==> Outcome(err, bus.State()) == Run(DisableScript(rest), old(bus.State()))
    ensures err >= 0 ==> err == 0 && Run(rest, bus.State()) == Run(DisableScript(rest), old(bus.State()))
  {
    ghost var s2 := Then(Access(Update(FLAG, COUNTER_BIT, DISABLE_COUNTER), true), rest);
    ghost var s1 := Then(Access(Update(CONTROL, COUNTER_BIT, DISABLE_COUNTER), true), s2);
    err := bus.UpdateByte(EXTENSION, COUNTER_BIT, DISABLE_COUNTER);
    if err < 0 {
      return;
    }
    ghost var w1 := bus.State();
    err := bus.UpdateByte(CONTROL, COUNTER_BIT, DISABLE_COUNTER);
    if err < 0 {
      return;
    }
    assert Run(s1, w1) == Run(s2, bus.State());
    ghost var w2 := bus.State();
    err := bus.UpdateByte(FLAG, COUNTER_BIT, DISABLE_COUNTER);
    assert err >= 0 ==> Run(s2, w2) == Run(rest, bus.State());
  }

  /** The configuration writes of `set_top_value`. */
  method Configure(bus: RegisterFile, code: byte, tc0: byte, tc1: byte, irq: bool) returns (err: int)
    requires bus.Valid()
    modifies bus
    ensures bus.Valid()
    ensures Outcome(err, bus.State()) == Run(ConfigureScript(code, tc0, tc1, irq), old(bus.State()))
    ensures err <= 0
  {
    ghost var s3 := if irq then Then(Access(Update(CONTROL, COUNTER_BIT, ENABLE_COUNTER), true), Return(0)) else Return(0);
    ghost var s2 := Then(Access(Update(TIMER_COUNTER_1, TC1_MASK, tc1), true), s3);
    ghost var s1 := Then(Access(Write(TIMER_COUNTER_0, [tc0]), true), s2);
    err := bus.UpdateByte(EXTENSION, FREQUENCY_MASK, code);
    if err < 0 {
      return;
    }
    ghost var w1 := bus.State();
    err := bus.WriteByte(TIMER_COUNTER_0, tc0);
    if err < 0 {
      return;
    }
    assert Run(s1, w1) == Run(s2, bus.State());
    ghost var w2 := bus.State();
    err := bus.UpdateByte(TIMER_COUNTER_1, TC1_MASK, tc1);
    if err < 0 {
      return;
    }
    assert Run(s2, w2) == Run(s3, bus.State());
    if irq {
      ghost var w3 := bus.State();
      err := bus.UpdateByte(CONTROL, COUNTER_BIT, ENABLE_COUNTER);
      assert Run(s3, w3) == Outcome(err, bus.State());
    }
  }

  /** The registers after the three served disables. */
  function DisabledRegs(regs: seq<byte>): seq<byte>
    requires |regs| == REG_COUNT
  {
    regs[EXTENSION := Masked(regs[EXTENSION], COUNTER_BIT, DISABLE_COUNTER)]
        [CONTROL := Masked(regs[CONTROL], COUNTER_BIT, DISABLE_COUNTER)]
        [FLAG := Masked(regs[FLAG], COUNTER_BIT, DISABLE_COUNTER)]
  }

  /** The state after the three served disables. */
  function Disabled(c: Chip): Chip
    requires Good(c)
  {
    c.(regs := DisabledRegs(c.regs), faults := Tail(Tail(Tail(c.faults))),
       trace := c.trace + [Ok(Update(EXTENSION, COUNTER_BIT, DISABLE_COUNTER), [])]
                        + [Ok(Update(CONTROL, COUNTER_BIT, DISABLE_COUNTER), [])]
                        + [Ok(Update(FLAG, COUNTER_BIT, DISABLE_COUNTER), [])])
  }

  /** The disables address registers of the chip and return nothing of
   *  their own. */
  lemma DisableShape(rest: Script)
    ensures Accesses(DisableScript(rest)) == 3 + Accesses(rest)
    ensures Wf(DisableScript(rest)) == Wf(rest)
    ensures Code(DisableScript(rest)) == Code(rest)
  {
    var s2 := Then(Access(Update(FLAG, COUNTER_BIT, DISABLE_COUNTER), true), rest);
    var s1 := Then(Access(Update(CONTROL, COUNTER_BIT, DISABLE_COUNTER), true), s2);
    assert Accesses(s2) == 1 + Accesses(rest) && Wf(s2) == Wf(rest) && Code(s2) == Code(rest);
    assert Accesses(s1) == 2 + Accesses(rest) && Wf(s1) == Wf(rest) && Code(s1) == Code(rest);
  }

  /** A served disable prefix clears the three bits, then the rest runs. */
  lemma ServeDisable(rest: Script, c: Chip)
    requires Good(c)
    ensures Serve(DisableScript(rest), c) == Serve(rest, Disabled(c))
  {
    var s2 := Then(Access(Update(FLAG, COUNTER_BIT, DISABLE_COUNTER), true), rest);
    var s1 := Then(Access(Update(CONTROL, COUNTER_BIT, DISABLE_COUNTER), true), s2);
    ServeUpdate(EXTENSION, COUNTER_BIT, DISABLE_COUNTER, true, s1, c);
    var c1 := c.(regs := Effect(c.regs, Update(EXTENSION, COUNTER_BIT, DISABLE_COUNTER)), faults := Tail(c.faults),
                 trace := c.trace + [Ok(Update(EXTENSION, COUNTER_BIT, DISABLE_COUNTER), [])]);
    ServeUpdate(CONTROL, COUNTER_BIT, DISABLE_COUNTER, true, s2, c1);
    var c2 := c1.(regs := Effect(c1.regs, Update(CONTROL, COUNTER_BIT, DISABLE_COUNTER)), faults := Tail(c1.faults),
                  trace := c1.trace + [Ok(Update(CONTROL, COUNTER_BIT, DISABLE_COUNTER), [])]);
    ServeUpdate(FLAG, COUNTER_BIT, DISABLE_COUNTER, true, rest, c2);
  }

  /** On a bus that does not fail, an unknown frequency is refused after the
   *  three disables, which is all that changes: the countdown is left
   *  stopped, with its interrupt and flag cleared. */
  lemma FrequencyRefusedClean(ticks: nat, freq: nat, irq: bool, c: Chip)
    requires Good(c) && Clean(c, 3) && TicksValid(ticks) && FrequencyCode(freq).None?
    ensures Run(SetTopScript(ticks, freq, irq), c).err == -EINVAL
    ensures Run(SetTopScript(ticks, freq, irq), c).chip.regs
         == c.regs[EXTENSION := c.regs[EXTENSION] & !COUNTER_BIT]
                  [CONTROL := c.regs[CONTROL] & !COUNTER_BIT]
                  [FLAG := c.regs[FLAG] & !COUNTER_BIT]
  {
    DisableShape(Return(-EINVAL));
    RunClean(DisableScript(Return(-EINVAL)), c);
    ServeDisable(Return(-EINVAL), c);
    StartStopBits(c.regs[EXTENSION]);
    StartStopBits(c.regs[CONTROL]);
    StartStopBits(c.regs[FLAG]);
  }

  /** The registers after the served configuration writes. */
  function ConfiguredRegs(regs: seq<byte>, code: byte, ticks: nat, irq: bool): seq<byte>
    requires |regs| == REG_COUNT
  {
    regs[..TIMER_COUNTER_0] +
    [Tc0(ticks),
     Tc1(regs[TIMER_COUNTER_1], ticks),
     Masked(regs[EXTENSION], FREQUENCY_MASK, code),
     regs[FLAG],
     if irq then Masked(regs[CONTROL], COUNTER_BIT, ENABLE_COUNTER) else regs[CONTROL]]
  }

  /** The register changes of the configuration, in their order. */
  lemma ConfigureEffects(regs: seq<byte>, code: byte, ticks: nat, irq: bool)
    requires |regs| == REG_COUNT
    ensures var r := Effect(Store(Effect(regs, Update(EXTENSION, FREQUENCY_MASK, code)), TIMER_COUNTER_0, [Tc0(ticks)]),
                            Update(TIMER_COUNTER_1, TC1_MASK, Tc1Bits(ticks)));
            (if irq then Effect(r, Update(CONTROL, COUNTER_BIT, ENABLE_COUNTER)) else r) ==
            ConfiguredRegs(regs, code, ticks, irq)
  {
  }

  /** The configuration addresses registers of the chip and returns 0. */
  lemma ConfigureShape(code: byte, tc0: byte, tc1: byte, irq: bool)
    ensures Accesses(ConfigureScript(code, tc0, tc1, irq)) == if irq then 4 else 3
    ensures Wf(ConfigureScript(code, tc0, tc1, irq))
    ensures Code(ConfigureScript(code, tc0, tc1, irq)) == 0
  {
    var s3 := if irq then Then(Access(Update(CONTROL, COUNTER_BIT, ENABLE_COUNTER), true), Return(0)) else Return(0);
    var s2 := Then(Access(Update(TIMER_COUNTER_1, TC1_MASK, tc1), true), s3);
    assert Accesses(s3) == if irq then 1 else 0;
    assert Wf(s3) && Code(s3) == 0;
    assert Accesses(s2) == 1 + Accesses(s3) && Wf(s2) && Code(s2) == 0;
  }

  /** The registers a served configuration leaves. */
  lemma ServeConfigure(code: byte, ticks: nat, irq: bool, c: Chip)
    requires Good(c)
    ensures Serve(ConfigureScript(code, Tc0(ticks), Tc1Bits(ticks), irq), c).regs == ConfiguredRegs(c.regs, code, ticks, irq)
  {
    var s3 := if irq then Then(Access(Update(CONTROL, COUNTER_BIT, ENABLE_COUNTER), true), Return(0)) else Return(0);
    var s2 := Then(Access(Update(TIMER_COUNTER_1, TC1_MASK, Tc1Bits(ticks)), true), s3);
    var s1 := Then(Access(Write(TIMER_COUNTER_0, [Tc0(ticks)]), true), s2);
    ServeUpdate(EXTENSION, FREQUENCY_MASK, code, true, s1, c);
    var c1 := c.(regs := Effect(c.regs, Update(EXTENSION, FREQUENCY_MASK, code)), faults := Tail(c.faults),
                 trace := c.trace + [Ok(Update(EXTENSION, FREQUENCY_MASK, code), [])]);
    ServeWrite(TIMER_COUNTER_0, [Tc0(ticks)], true, s2, c1);
    var c2 := c1.(regs := Store(c1.regs, TIMER_COUNTER_0, [Tc0(ticks)]), faults := Tail(c1.faults),
                  trace := c1.trace + [Ok(Write(TIMER_COUNTER_0, [Tc0(ticks)]), [])]);
    ServeUpdate(TIMER_COUNTER_1, TC1_MASK, Tc1Bits(ticks), true, s3, c2);
    var c3 := c2.(regs := Effect(c2.regs, Update(TIMER_COUNTER_1, TC1_MASK, Tc1Bits(ticks))), faults := Tail(c2.faults),
                  trace := c2.trace + [Ok(Update(TIMER_COUNTER_1, TC1_MASK, Tc1Bits(ticks)), [])]);
    if irq {
      ServeUpdate(CONTROL, COUNTER_BIT, ENABLE_COUNTER, true, Return(0), c3);
    }
    ConfigureEffects(c.regs, code, ticks, irq);
  }

  /** What the disables and the configuration do to each register bit. */
  lemma TopValueBits(regs: seq<byte>, code: byte, ticks: nat, irq: bool)
    requires |regs| == REG_COUNT && ticks <= MAX_TOP_VALUE && code <= 2
    ensures var r := ConfiguredRegs(DisabledRegs(regs), code, ticks, irq);
            r[..TIMER_COUNTER_0] == regs[..TIMER_COUNTER_0] &&
            TopOf(r[TIMER_COUNTER_0], r[TIMER_COUNTER_1]) == ticks &&
            r[TIMER_COUNTER_1] & !TC1_MASK == regs[TIMER_COUNTER_1] & !TC1_MASK &&
            r[EXTENSION] & COUNTER_BIT == 0 &&
            r[EXTENSION] & FREQUENCY_MASK == code &&
            r[EXTENSION] & !(COUNTER_BIT | FREQUENCY_MASK) == regs[EXTENSION] & !(COUNTER_BIT | FREQUENCY_MASK) &&
            r[FLAG] == regs[FLAG] & !COUNTER_BIT &&
            r[CONTROL] == if irq then regs[CONTROL] | COUNTER_BIT else regs[CONTROL] & !COUNTER_BIT
  {
    var d := DisabledRegs(regs);
    assert d[..TIMER_COUNTER_0] == regs[..TIMER_COUNTER_0];
    assert d[TIMER_COUNTER_1] == regs[TIMER_COUNTER_1];
    TopRoundTrip(ticks, regs[TIMER_COUNTER_1]);
    FrequencyBits(regs[EXTENSION], code);
    StartStopBits(regs[FLAG]);
    StartStopBits(regs[CONTROL]);
  }

  /** TE cleared and then TD set: the counter is left stopped. */
  lemma FrequencyBits(ext: byte, code: byte)
    requires code <= 2
    ensures var e := Masked(Masked(ext, COUNTER_BIT, DISABLE_COUNTER), FREQUENCY_MASK, code);
            e & COUNTER_BIT == 0 && e & FREQUENCY_MASK == code &&
            e & !(COUNTER_BIT | FREQUENCY_MASK) == ext & !(COUNTER_BIT | FREQUENCY_MASK)
  {
  }

  /** On a bus that does not fail, `set_top_value` with an accepted value
   *  and frequency stores the reload value, where `get_top_value` reads
   *  it back, selects the frequency, leaves the countdown stopped with its
   *  flag cleared, sets TIE exactly when there is an interrupt line, and
   *  changes no other bit. */
  lemma SetTopClean(ticks: nat, freq: nat, irq: bool, c: Chip)
    requires Good(c) && Clean(c, 7) && TicksValid(ticks) && FrequencyCode(freq).Some?
    ensures Run(SetTopScript(ticks, freq, irq), c).err == 0
    ensures var r := Run(SetTopScript(ticks, freq, irq), c).chip.regs;
            r[..TIMER_COUNTER_0] == c.regs[..TIMER_COUNTER_0] &&
            TopOf(r[TIMER_COUNTER_0], r[TIMER_COUNTER_1]) == ticks &&
            r[TIMER_COUNTER_1] & !TC1_MASK == c.regs[TIMER_COUNTER_1] & !TC1_MASK &&
            r[EXTENSION] & COUNTER_BIT == 0 &&
            r[EXTENSION] & FREQUENCY_MASK == FrequencyCode(freq).value &&
            r[EXTENSION] & !(COUNTER_BIT | FREQUENCY_MASK) == c.regs[EXTENSION] & !(COUNTER_BIT | FREQUENCY_MASK) &&
            r[FLAG] == c.regs[FLAG] & !COUNTER_BIT &&
            r[CONTROL] == if irq then c.regs[CONTROL] | COUNTER_BIT else c.regs[CONTROL] & !COUNTER_BIT
  {
    SetTopServed(ticks, freq, irq, c);
    TopValueBits(c.regs, FrequencyCode(freq).value, ticks, irq);
  }

  /** The clean run of `set_top_value`: the disables, then the
   *  configuration. */
  lemma SetTopServed(ticks: nat, freq: nat, irq: bool, c: Chip)
    requires Good(c) && Clean(c, 7) && TicksValid(ticks) && FrequencyCode(freq).Some?
    ensures Run(SetTopScript(ticks, freq, irq), c).err == 0
    ensures Run(SetTopScript(ticks, freq, irq), c).chip.regs
         == ConfiguredRegs(DisabledRegs(c.regs), FrequencyCode(freq).value, ticks, irq)
  {
    var code := FrequencyCode(freq).value;
    var rest := ConfigureScript(code, Tc0(ticks), Tc1Bits(ticks), irq);
    assert SetTopScript(ticks, freq, irq) == DisableScript(rest);
    ConfigureShape(code, Tc0(ticks), Tc1Bits(ticks), irq);
    DisableShape(rest);
    RunClean(DisableScript(rest), c);
    ServeDisable(rest, c);
    ServeConfigure(code, ticks, irq, Disabled(c));
  }

  // ------------------------------------------------------ get_top_value

  /** `rv8803_cnt_get_top_value`: one two-byte read from TC0; a bus error
   *  is returned converted to the unsigned result type. */
  method GetTopValue(bus: RegisterFile) returns (top: int)
    requires bus.Valid()
    modifies bus
    ensures bus.Valid()
    ensures bus.State() == Fire(old(bus.State()), Read(TIMER_COUNTER_0, 2)).chip
    ensures var err := Fire(old(bus.State()), Read(TIMER_COUNTER_0, 2)).err;
            top == if err < 0 then ToU32(err)
                   else TopOf(old(bus.regs[TIMER_COUNTER_0]), old(bus.regs[TIMER_COUNTER_1]))
  {
    ReadPlain(bus.State(), TIMER_COUNTER_0, 2);
    var err, regs := bus.BurstRead(TIMER_COUNTER_0, 2);
    if err < 0 {
      return ToU32(err);
    }
    return TopOf(regs[0], regs[1]);
  }

  // --------------------------------------------------- get_pending_int

  /** The transactions of `get_pending_int` when TF is `pending`: the flag
   *  read, whose error is returned; then a clear of TF whose error is
   *  ignored, and 1; else 0. */
  function PendingIntScript(pending: bool): Script
  {
    Then(Access(Read(FLAG, 1), true),
      if pending then Then(Access(Update(FLAG, COUNTER_BIT, DISABLE_COUNTER), false), Return(1))
      else Return(0))
  }

  /** `rv8803_cnt_get_pending_int`. */
  method GetPendingInt(bus: RegisterFile) returns (pending: int)
    requires bus.Valid()
    modifies bus
    ensures bus.Valid()
    ensures var o := Run(PendingIntScript(old(bus.regs[FLAG]) & COUNTER_BIT != 0), old(bus.State()));
            bus.State() == o.chip && pending == if o.err < 0 then ToU32(o.err) else o.err
  {
    ghost var c0 := bus.State();
    ReadPlain(c0, FLAG, 1);
    var err, reg := bus.ReadByte(FLAG);
    if err < 0 {
      return ToU32(err);
    }
    if reg & COUNTER_BIT != 0 {
      ghost var w := bus.State();
      err := bus.UpdateByte(FLAG, COUNTER_BIT, DISABLE_COUNTER);
      assert Run(Then(Access(Update(FLAG, COUNTER_BIT, DISABLE_COUNTER), false), Return(1)), w)
          == Outcome(1, bus.State());
      return 1;
    }
    return 0;
  }

  /** On a bus that does not fail, `get_pending_int` reports TF and clears
   *  it, changing nothing else. */
  lemma PendingIntClean(c: Chip)
    requires Good(c) && Clean(c, 2)
    ensures var o := Run(PendingIntScript(c.regs[FLAG] & COUNTER_BIT != 0), c);
            o.err == (if c.regs[FLAG] & COUNTER_BIT != 0 then 1 else 0) &&
            o.chip.regs == c.regs[FLAG := c.regs[FLAG] & !COUNTER_BIT]
  {
    var pending := c.regs[FLAG] & COUNTER_BIT != 0;
    var rest := if pending then Then(Access(Update(FLAG, COUNTER_BIT, DISABLE_COUNTER), false), Return(1)) else Return(0);
    assert Accesses(rest) <= 1 && Wf(rest);
    assert Accesses(PendingIntScript(pending)) <= 2 && Wf(PendingIntScript(pending));
    assert Code(PendingIntScript(pending)) == if pending then 1 else 0;
    RunClean(PendingIntScript(pending), c);
    ServeRead(FLAG, 1, true, rest, c);
    var c1 := c.(faults := Tail(c.faults), trace := c.trace + [Ok(Read(FLAG, 1), Reply(c.regs, Read(FLAG, 1)))]);
    if pending {
      ServeUpdate(FLAG, COUNTER_BIT, DISABLE_COUNTER, false, Return(1), c1);
    }
    StartStopBits(c.regs[FLAG]);
    if !pending {
      ClearedAlready(c.regs[FLAG]);
    }
  }

  /** Clearing a clear bit changes nothing. */
  lemma ClearedAlready(b: byte)
    requires b & COUNTER_BIT == 0
    ensures b & !COUNTER_BIT == b
  {
  }

  /** When the clear fails the interrupt is still reported, and TF stays set
   *  on the chip, so the next call reports it again. */
  lemma PendingIntIgnoresClearError(c: Chip)
    requires Good(c) && |c.faults| >= 2 && c.faults[0] >= 0 && c.faults[1] < 0
    requires c.regs[FLAG] & COUNTER_BIT != 0
    ensures Run(PendingIntScript(true), c).err == 1
    ensures Run(PendingIntScript(true), c).chip.regs == c.regs
    ensures Run(PendingIntScript(true), c).chip.regs[FLAG] & COUNTER_BIT != 0
  {
    var o1 := Fire(c, Read(FLAG, 1));
    assert o1.err == 0 && o1.chip.regs == c.regs;
    assert Head(o1.chip.faults) == c.faults[1];
    var o2 := Fire(o1.chip, Update(FLAG, COUNTER_BIT, DISABLE_COUNTER));
    assert o2.err < 0 && o2.chip.regs == c.regs;
    assert Run(PendingIntScript(true), c) == Run(Return(1), o2.chip);
  }

  // ------------------------------------------------------------ worker

  /** The callback runs when TF is set and a callback is registered. */
  predicate Due(flag: byte, counter: bool, cb: Ptr)
  {
    flag & COUNTER_BIT != 0 && counter && cb != NULL
  }

  /** The transactions of `rv8803_cnt_worker`: the flag read; when due the
   *  callback, then a clear of TF whose error is ignored. */
  function WorkerScript(due: bool, cb: Ptr, user: Ptr): Script
  {
    Then(Access(Read(FLAG, 1), false),
      if due then Then(Invoke(cb, user), Then(Access(Update(FLAG, COUNTER_BIT, DISABLE_COUNTER), false), Return(0)))
      else Return(0))
  }

  /** On a bus that does not fail, the worker calls the callback before it
   *  clears TF, and changes no other register; when not due it only reads. */
  lemma WorkerClean(due: bool, cb: Ptr, user: Ptr, c: Chip)
    requires Good(c) && Clean(c, 2)
    ensures Run(WorkerScript(due, cb, user), c).chip.regs
         == if due then c.regs[FLAG := c.regs[FLAG] & !COUNTER_BIT] else c.regs
    ensures Run(WorkerScript(due, cb, user), c).chip.trace
         == c.trace + [Ok(Read(FLAG, 1), [c.regs[FLAG]])] +
            (if due then [Called(cb, user), Ok(Update(FLAG, COUNTER_BIT, DISABLE_COUNTER), [])] else [])
  {
    var clear := Then(Access(Update(FLAG, COUNTER_BIT, DISABLE_COUNTER), false), Return(0));
    var rest := if due then Then(Invoke(cb, user), clear) else Return(0);
    assert Accesses(clear) == 1 && Wf(clear);
    assert Accesses(rest) <= 1 && Wf(rest);
    assert Accesses(WorkerScript(due, cb, user)) <= 2 && Wf(WorkerScript(due, cb, user));
    RunClean(WorkerScript(due, cb, user), c);
    ServeRead(FLAG, 1, false, rest, c);
    assert Reply(c.regs, Read(FLAG, 1)) == [c.regs[FLAG]];
    var c1 := c.(faults := Tail(c.faults), trace := c.trace + [Ok(Read(FLAG, 1), [c.regs[FLAG]])]);
    if due {
      var c2 := c1.(trace := c1.trace + [Called(cb, user)]);
      ServeUpdate(FLAG, COUNTER_BIT, DISABLE_COUNTER, false, Return(0), c2);
      StartStopBits(c.regs[FLAG]);
    }
  }

  /** `struct rv8803_cnt_data` with the configured frequency: `irq` and
   *  `counter` are whether the interrupt and callback structures exist,
   *  `cb` and `user` the callback they hold. */
  class CounterData {
    const freq: nat
    const irq: bool
    const counter: bool
    var cb: Ptr
    var user: Ptr

    constructor (freq: nat, irq: bool, counter: bool)
      ensures this.freq == freq && this.irq == irq && this.counter == counter
      ensures cb == NULL && user == NULL
    {
      this.freq, this.irq, this.counter := freq, irq, counter;
      cb, user := NULL, NULL;
    }

    /** `rv8803_cnt_set_top_value`, with the reload value check corrected to
     *  admit the advertised maximum; the callback is stored only once every
     *  write succeeded, and only with an interrupt line. */
    method SetTopValue(bus: RegisterFile, ticks: nat, callback: Ptr, userData: Ptr) returns (err: int)
      requires bus.Valid()
      modifies this, bus
      ensures bus.Valid()
      ensures Outcome(err, bus.State()) == Run(SetTopScript(ticks, freq, irq), old(bus.State()))
      ensures !TicksValid(ticks) ==> err == -EINVAL && bus.State() == old(bus.State())
      ensures irq && counter && err == 0 ==> cb == callback && user == userData
      ensures !(irq && counter && err == 0) ==> cb == old(cb) && user == old(user)
    {
      if !TicksValid(ticks) {
        return -EINVAL;
      }
      ghost var rest := match FrequencyCode(freq)
                        case None => Return(-EINVAL)
                        case Some(code) => ConfigureScript(code, Tc0(ticks), Tc1Bits(ticks), irq);
      assert SetTopScript(ticks, freq, irq) == DisableScript(rest);
      err := Disable(bus, rest);
      if err < 0 {
        return;
      }
      var code := FrequencyCode(freq);
      if code.None? {
        return -EINVAL;
      }
      err := Configure(bus, code.value, Tc0(ticks), Tc1Bits(ticks), irq);
      if err < 0 {
        return;
      }
      assert err == 0;
      if irq && counter {
        cb := callback;
        user := userData;
      }
      return 0;
    }

    /** `rv8803_cnt_worker`, run from the interrupt line; a failed flag read
     *  would leave the byte it tests undefined, so the read is required to
     *  succeed. */
    method Worker(bus: RegisterFile)
      requires bus.Valid() && Head(bus.faults) >= 0
      modifies bus
      ensures bus.Valid()
      ensures bus.State() == Run(WorkerScript(Due(old(bus.regs[FLAG]), counter, cb), cb, user), old(bus.State())).chip
    {
      ghost var c0 := bus.State();
      ghost var due := Due(c0.regs[FLAG], counter, cb);
      ghost var clear := Then(Access(Update(FLAG, COUNTER_BIT, DISABLE_COUNTER), false), Return(0));
      ReadPlain(c0, FLAG, 1);
      var err, reg := bus.ReadByte(FLAG);
      assert reg == c0.regs[FLAG];
      if reg & COUNTER_BIT != 0 {
        if counter && cb != NULL {
          bus.Call(cb, user);
          ghost var w := bus.State();
          err := bus.UpdateByte(FLAG, COUNTER_BIT, DISABLE_COUNTER);
          assert Run(clear, w) == Outcome(0, bus.State());
        }
      }
    }
  }
}
