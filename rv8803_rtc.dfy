/**
 * The interrupt side of the current Micro Crystal RTC driver
 * (`rv8803_rtc.c`): the alarm and update callbacks it stores, the worker
 * the multi-function device's interrupt runs, and the update interrupt
 * set-up. The calendar and alarm transactions it shares with the earlier
 * revision are in `CalendarDriver` and `AlarmDriver`.
 */
module Rv8803Rtc {
  import opened Common
  import opened Bus
  import opened Alarm

  /** UIE in the control register, UF in the flag register and USEL in the
   *  extension register are all bit 5. */
  const UPDATE_BIT: byte := 0x20
  const ENABLE_UPDATE: byte := 0x20
  const DISABLE_UPDATE: byte := 0x00

  // ------------------------------------------------------------ worker

  /** The flag bit `bit` is set and a callback is registered for it. */
  predicate Due(flag: byte, bit: byte, cb: Ptr)
  {
    flag & bit != 0 && cb != NULL
  }

  /** Call the callback, then clear its flag bit; the clear's error is
   *  only logged. */
  function Acknowledge(due: bool, bit: byte, cb: Ptr, user: Ptr, rest: Script): Script
  {
    if due then Then(Invoke(cb, user), Then(Access(Update(FLAG, bit, 0), false), rest)) else rest
  }

  /** The worker's transactions: one flag read, then the alarm and the
   *  update interrupt, each handled when `Due`. */
  function WorkerScript(alarm: bool, update: bool, alarmCb: Ptr, alarmUser: Ptr, updateCb: Ptr, updateUser: Ptr): Script
  {
    Then(Access(Read(FLAG, 1), false),
      Acknowledge(alarm, ALARM_BIT, alarmCb, alarmUser,
        Acknowledge(update, UPDATE_BIT, updateCb, updateUser, Return(0))))
  }

  /** The flag register once the worker has cleared the handled bits. */
  function Acked(flag: byte, alarm: bool, update: bool): byte
  {
    var f := if alarm then Masked(flag, ALARM_BIT, 0) else flag;
    if update then Masked(f, UPDATE_BIT, 0) else f
  }

  /** What the log shows after the flag read. */
  function Handled(alarm: bool, update: bool, alarmCb: Ptr, alarmUser: Ptr, updateCb: Ptr, updateUser: Ptr): seq<Event>
  {
    (if alarm then [Called(alarmCb, alarmUser), Ok(Update(FLAG, ALARM_BIT, 0), [])] else []) +
    (if update then [Called(updateCb, updateUser), Ok(Update(FLAG, UPDATE_BIT, 0), [])] else [])
  }

  /** A flag bit is left set exactly when it was set and no callback is
   *  registered for it; the other flag bits keep their values. */
  lemma AckedBits(flag: byte, alarmCb: Ptr, updateCb: Ptr)
    ensures var f := Acked(flag, Due(flag, ALARM_BIT, alarmCb), Due(flag, UPDATE_BIT, updateCb));
            (f & ALARM_BIT != 0 <==> flag & ALARM_BIT != 0 && alarmCb == NULL) &&
            (f & UPDATE_BIT != 0 <==> flag & UPDATE_BIT != 0 && updateCb == NULL) &&
            f & !(ALARM_BIT | UPDATE_BIT) == flag & !(ALARM_BIT | UPDATE_BIT)
  {
  }

  /** A served acknowledgement logs the call, then the clear. */
  lemma ServeAcknowledge(due: bool, bit: byte, cb: Ptr, user: Ptr, rest: Script, c: Chip)
    ensures Serve(Acknowledge(due, bit, cb, user, rest), c)
         == Serve(rest, if due then c.(regs := Effect(c.regs, Update(FLAG, bit, 0)), faults := Tail(c.faults),
                                       trace := c.trace + [Called(cb, user)] + [Ok(Update(FLAG, bit, 0), [])])
                        else c)
  {
    if due {
      var c1 := c.(trace := c.trace + [Called(cb, user)]);
      ServeUpdate(FLAG, bit, 0, false, rest, c1);
    }
  }

  /** The number of transactions of a worker run. */
  lemma WorkerAccesses(alarm: bool, update: bool, alarmCb: Ptr, alarmUser: Ptr, updateCb: Ptr, updateUser: Ptr)
    ensures Wf(WorkerScript(alarm, update, alarmCb, alarmUser, updateCb, updateUser))
    ensures Accesses(WorkerScript(alarm, update, alarmCb, alarmUser, updateCb, updateUser)) <= 3
  {
    var u := Acknowledge(update, UPDATE_BIT, updateCb, updateUser, Return(0));
    assert Fits(Update(FLAG, UPDATE_BIT, 0)) && Fits(Update(FLAG, ALARM_BIT, 0));
    assert Wf(u);
    assert Accesses(u) <= 1;
    var a := Acknowledge(alarm, ALARM_BIT, alarmCb, alarmUser, u);
    if alarm {
      var t := Then(Access(Update(FLAG, ALARM_BIT, 0), false), u);
      assert Wf(t);
      assert Accesses(t) == 1 + Accesses(u);
      assert a == Then(Invoke(alarmCb, alarmUser), t);
    }
    assert Wf(a);
    assert Accesses(a) <= 2;
  }

  /** On a bus that does not fail, the worker calls each due callback and
   *  then clears its flag bit, changing no other register. */
  lemma WorkerClean(c: Chip, alarm: bool, update: bool, alarmCb: Ptr, alarmUser: Ptr, updateCb: Ptr, updateUser: Ptr)
    requires Good(c) && Clean(c, 3)
    ensures Run(WorkerScript(alarm, update, alarmCb, alarmUser, updateCb, updateUser), c).chip.regs
         == c.regs[FLAG := Acked(c.regs[FLAG], alarm, update)]
    ensures Run(WorkerScript(alarm, update, alarmCb, alarmUser, updateCb, updateUser), c).chip.trace
         == c.trace + [Ok(Read(FLAG, 1), [c.regs[FLAG]])] + Handled(alarm, update, alarmCb, alarmUser, updateCb, updateUser)
  {
    var s := WorkerScript(alarm, update, alarmCb, alarmUser, updateCb, updateUser);
    var u := Acknowledge(update, UPDATE_BIT, updateCb, updateUser, Return(0));
    var a := Acknowledge(alarm, ALARM_BIT, alarmCb, alarmUser, u);
    WorkerAccesses(alarm, update, alarmCb, alarmUser, updateCb, updateUser);
    RunClean(s, c);
    ServeRead(FLAG, 1, false, a, c);
    var c1 := c.(faults := Tail(c.faults), trace := c.trace + [Ok(Read(FLAG, 1), Reply(c.regs, Read(FLAG, 1)))]);
    assert Reply(c.regs, Read(FLAG, 1)) == [c.regs[FLAG]];
    ServeAcknowledge(alarm, ALARM_BIT, alarmCb, alarmUser, u, c1);
    var c2 := if alarm then c1.(regs := Effect(c1.regs, Update(FLAG, ALARM_BIT, 0)), faults := Tail(c1.faults),
                                trace := c1.trace + [Called(alarmCb, alarmUser)] + [Ok(Update(FLAG, ALARM_BIT, 0), [])])
              else c1;
    ServeAcknowledge(update, UPDATE_BIT, updateCb, updateUser, Return(0), c2);
  }

  // ------------------------------------------------- update interrupt

  /** The transactions of `setup_update_interrupt`: UIE and UF to 0, then,
   *  unless disabling, USEL to 0 (one update a second) and UIE to 1. */
  function UpdateIrqScript(disable: bool): Script
  {
    Then(Access(Update(CONTROL, UPDATE_BIT, DISABLE_UPDATE), true),
    Then(Access(Update(FLAG, UPDATE_BIT, DISABLE_UPDATE), true),
      if disable then Return(0)
      else Then(Access(Update(EXTENSION, UPDATE_BIT, DISABLE_UPDATE), true),
           Then(Access(Update(CONTROL, UPDATE_BIT, ENABLE_UPDATE), true),
           Return(0)))))
  }

  /** `setup_update_interrupt`. */
  method SetupUpdateInterrupt(bus: RegisterFile, disable: bool) returns (err: int)
    requires bus.Valid()
    modifies bus
    ensures bus.Valid()
    ensures Outcome(err, bus.State()) == Run(UpdateIrqScript(disable), old(bus.State()))
    ensures err <= 0
  {
    ghost var s3 := Then(Access(Update(CONTROL, UPDATE_BIT, ENABLE_UPDATE), true), Return(0));
    ghost var s2 := Then(Access(Update(EXTENSION, UPDATE_BIT, DISABLE_UPDATE), true), s3);
    ghost var s1 := Then(Access(Update(FLAG, UPDATE_BIT, DISABLE_UPDATE), true),
                      if disable then Return(0) else s2);
    err := bus.UpdateByte(CONTROL, UPDATE_BIT, DISABLE_UPDATE);
    if err < 0 {
      return;
    }
    ghost var w1 := bus.State();
    err := bus.UpdateByte(FLAG, UPDATE_BIT, DISABLE_UPDATE);
    if err < 0 {
      return;
    }
    assert Run(s1, w1) == Run(if disable then Return(0) else s2, bus.State());
    if disable {
      return 0;
    }
    ghost var w2 := bus.State();
    err := bus.UpdateByte(EXTENSION, UPDATE_BIT, DISABLE_UPDATE);
    if err < 0 {
      return;
    }
    assert Run(s2, w2) == Run(s3, bus.State());
    ghost var w3 := bus.State();
    err := bus.UpdateByte(CONTROL, UPDATE_BIT, ENABLE_UPDATE);
    if err < 0 {
      return;
    }
    assert Run(s3, w3) == Outcome(err, bus.State());
    return 0;
  }

  /** The two accesses every set-up starts with: UIE, then UF, cleared. */
  lemma ServeDisable(rest: Script, c: Chip)
    requires Good(c)
    ensures Serve(Then(Access(Update(CONTROL, UPDATE_BIT, DISABLE_UPDATE), true),
                  Then(Access(Update(FLAG, UPDATE_BIT, DISABLE_UPDATE), true), rest)), c)
         == Serve(rest, c.(regs := c.regs[CONTROL := c.regs[CONTROL] & !UPDATE_BIT][FLAG := c.regs[FLAG] & !UPDATE_BIT],
                           faults := Tail(Tail(c.faults)),
                           trace := c.trace + [Ok(Update(CONTROL, UPDATE_BIT, DISABLE_UPDATE), [])]
                                            + [Ok(Update(FLAG, UPDATE_BIT, DISABLE_UPDATE), [])]))
  {
    var s1 := Then(Access(Update(FLAG, UPDATE_BIT, DISABLE_UPDATE), true), rest);
    ServeUpdate(CONTROL, UPDATE_BIT, DISABLE_UPDATE, true, s1, c);
    var c1 := c.(regs := Effect(c.regs, Update(CONTROL, UPDATE_BIT, DISABLE_UPDATE)), faults := Tail(c.faults),
                 trace := c.trace + [Ok(Update(CONTROL, UPDATE_BIT, DISABLE_UPDATE), [])]);
    ServeUpdate(FLAG, UPDATE_BIT, DISABLE_UPDATE, true, rest, c1);
    assert Masked(c.regs[CONTROL], UPDATE_BIT, DISABLE_UPDATE) == c.regs[CONTROL] & !UPDATE_BIT;
    assert Masked(c.regs[FLAG], UPDATE_BIT, DISABLE_UPDATE) == c.regs[FLAG] & !UPDATE_BIT;
  }

  /** On a bus that does not fail, switching the update interrupt off
   *  clears UIE and UF and changes no other bit of any register. */
  lemma UpdateIrqOffClean(c: Chip)
    requires Good(c) && Clean(c, 2)
    ensures Run(UpdateIrqScript(true), c).err == 0
    ensures Run(UpdateIrqScript(true), c).chip.regs
      == c.regs[CONTROL := c.regs[CONTROL] & !UPDATE_BIT][FLAG := c.regs[FLAG] & !UPDATE_BIT]
  {
    var s1 := Then(Access(Update(FLAG, UPDATE_BIT, DISABLE_UPDATE), true), Return(0));
    assert Accesses(s1) == 1;
    assert Accesses(UpdateIrqScript(true)) == 2;
    RunClean(UpdateIrqScript(true), c);
    ServeDisable(Return(0), c);
  }

  /** The registers once the update interrupt is on. */
  function UpdatingRegs(regs: seq<byte>): seq<byte>
    requires |regs| == REG_COUNT
  {
    regs[..EXTENSION] +
    [Masked(regs[EXTENSION], UPDATE_BIT, DISABLE_UPDATE),
     Masked(regs[FLAG], UPDATE_BIT, DISABLE_UPDATE),
     Masked(Masked(regs[CONTROL], UPDATE_BIT, DISABLE_UPDATE), UPDATE_BIT, ENABLE_UPDATE)]
  }

  /** The four register changes of the enabling set-up, in their order. */
  lemma UpdatingEffects(regs: seq<byte>)
    requires |regs| == REG_COUNT
    ensures Effect(Effect(Effect(Effect(regs, Update(CONTROL, UPDATE_BIT, DISABLE_UPDATE)),
                                 Update(FLAG, UPDATE_BIT, DISABLE_UPDATE)),
                          Update(EXTENSION, UPDATE_BIT, DISABLE_UPDATE)),
                   Update(CONTROL, UPDATE_BIT, ENABLE_UPDATE))
         == UpdatingRegs(regs)
  {
  }

  /** What the masked writes of the enabling set-up do to each bit. */
  lemma UpdatingBits(ext: byte, flag: byte, ctrl: byte)
    ensures Masked(ext, UPDATE_BIT, DISABLE_UPDATE) == ext & !UPDATE_BIT
    ensures Masked(flag, UPDATE_BIT, DISABLE_UPDATE) == flag & !UPDATE_BIT
    ensures Masked(Masked(ctrl, UPDATE_BIT, DISABLE_UPDATE), UPDATE_BIT, ENABLE_UPDATE) == ctrl | UPDATE_BIT
  {
  }

  /** On a bus that does not fail, switching the update interrupt on
   *  leaves UF and USEL clear and UIE set, and changes no other bit of any
   *  register. */
  lemma UpdateIrqOnClean(c: Chip)
    requires Good(c) && Clean(c, 4)
    ensures Run(UpdateIrqScript(false), c).err == 0
    ensures var r := Run(UpdateIrqScript(false), c).chip.regs;
            r[..EXTENSION] == c.regs[..EXTENSION] &&
            r[EXTENSION] == c.regs[EXTENSION] & !UPDATE_BIT &&
            r[FLAG] == c.regs[FLAG] & !UPDATE_BIT &&
            r[CONTROL] == c.regs[CONTROL] | UPDATE_BIT
  {
    var s3 := Then(Access(Update(CONTROL, UPDATE_BIT, ENABLE_UPDATE), true), Return(0));
    var s2 := Then(Access(Update(EXTENSION, UPDATE_BIT, DISABLE_UPDATE), true), s3);
    var s1 := Then(Access(Update(FLAG, UPDATE_BIT, DISABLE_UPDATE), true), s2);
    var s0 := UpdateIrqScript(false);
    assert Accesses(s3) == 1;
    assert Accesses(s1) == 3;
    assert Accesses(s0) == 4;
    assert Wf(s2);
    assert Wf(s0);
    assert Code(s2) == 0;
    assert Code(s0) == 0;
    RunClean(s0, c);
    ServeUpdate(CONTROL, UPDATE_BIT, DISABLE_UPDATE, true, s1, c);
    var c1 := c.(regs := Effect(c.regs, Update(CONTROL, UPDATE_BIT, DISABLE_UPDATE)), faults := Tail(c.faults),
                 trace := c.trace + [Ok(Update(CONTROL, UPDATE_BIT, DISABLE_UPDATE), [])]);
    ServeUpdate(FLAG, UPDATE_BIT, DISABLE_UPDATE, true, s2, c1);
    var c2 := c1.(regs := Effect(c1.regs, Update(FLAG, UPDATE_BIT, DISABLE_UPDATE)), faults := Tail(c1.faults),
                  trace := c1.trace + [Ok(Update(FLAG, UPDATE_BIT, DISABLE_UPDATE), [])]);
    ServeUpdate(EXTENSION, UPDATE_BIT, DISABLE_UPDATE, true, s3, c2);
    var c3 := c2.(regs := Effect(c2.regs, Update(EXTENSION, UPDATE_BIT, DISABLE_UPDATE)), faults := Tail(c2.faults),
                  trace := c2.trace + [Ok(Update(EXTENSION, UPDATE_BIT, DISABLE_UPDATE), [])]);
    ServeUpdate(CONTROL, UPDATE_BIT, ENABLE_UPDATE, true, Return(0), c3);
    UpdatingEffects(c.regs);
    UpdatingBits(c.regs[EXTENSION], c.regs[FLAG], c.regs[CONTROL]);
  }

  // ------------------------------------------------------- driver data

  /** `struct rv8803_rtc_data` with its alarm and update callbacks; `irq`
   *  is whether the device has an interrupt line (`irq_gpio.port`). */
  class RtcData {
    const irq: bool
    var alarmCb: Ptr
    var alarmUser: Ptr
    var updateCb: Ptr
    var updateUser: Ptr

    constructor (irq: bool)
      ensures this.irq == irq
      ensures alarmCb == NULL && alarmUser == NULL && updateCb == NULL && updateUser == NULL
    {
      this.irq := irq;
      alarmCb, alarmUser, updateCb, updateUser := NULL, NULL, NULL, NULL;
    }

    /** `alarm_set_callback`: without an interrupt line nothing is stored. */
    method AlarmSetCallback(cb: Ptr, user: Ptr) returns (err: int)
      modifies this
      ensures !irq ==> err == -ENOTSUP && unchanged(this)
      ensures irq ==> err == 0 && alarmCb == cb && alarmUser == user
      ensures updateCb == old(updateCb) && updateUser == old(updateUser)
    {
      if !irq {
        return -ENOTSUP;
      }
      alarmCb := cb;
      alarmUser := user;
      return 0;
    }

    /** `update_set_callback`: the callback is stored before it is checked;
     *  a NULL callback with user data is refused, a NULL callback without
     *  it switches the update interrupt off, any other switches it on. */
    method UpdateSetCallback(bus: RegisterFile, cb: Ptr, user: Ptr) returns (err: int)
      requires bus.Valid()
      modifies this, bus
      ensures bus.Valid()
      ensures !irq ==> err == -ENOTSUP && unchanged(this) && bus.State() == old(bus.State())
      ensures irq ==> updateCb == cb && updateUser == user
      ensures alarmCb == old(alarmCb) && alarmUser == old(alarmUser)
      ensures irq && cb == NULL && user != NULL ==> err == -EINVAL && bus.State() == old(bus.State())
      ensures irq && (cb != NULL || user == NULL) ==>
        Outcome(err, bus.State()) == Run(UpdateIrqScript(cb == NULL), old(bus.State()))
    {
      if !irq {
        return -ENOTSUP;
      }
      updateCb := cb;
      updateUser := user;
      if cb == NULL && user != NULL {
        return -EINVAL;
      }
      err := SetupUpdateInterrupt(bus, cb == NULL && user == NULL);
      if err < 0 {
        return err;
      }
      return 0;
    }

    /** `rtc_worker`: one flag read, then each interrupt whose flag is set
     *  and whose callback is registered is handled, alarm first. The read
     *  is assumed to succeed: on failure the driver tests an uninitialised
     *  byte. */
    method Worker(bus: RegisterFile)
      requires bus.Valid() && Head(bus.faults) >= 0
      modifies bus
      ensures bus.Valid()
      ensures bus.State() == Run(WorkerScript(Due(old(bus.regs[FLAG]), ALARM_BIT, alarmCb),
                                              Due(old(bus.regs[FLAG]), UPDATE_BIT, updateCb),
                                              alarmCb, alarmUser, updateCb, updateUser), old(bus.State())).chip
    {
      ghost var c0 := bus.State();
      ghost var alarm := Due(c0.regs[FLAG], ALARM_BIT, alarmCb);
      ghost var update := Due(c0.regs[FLAG], UPDATE_BIT, updateCb);
      ghost var u := Acknowledge(update, UPDATE_BIT, updateCb, updateUser, Return(0));
      ghost var a := Acknowledge(alarm, ALARM_BIT, alarmCb, alarmUser, u);
      ReadPlain(c0, FLAG, 1);
      var err, reg := bus.ReadByte(FLAG);
      assert reg == c0.regs[FLAG];
      assert Run(WorkerScript(alarm, update, alarmCb, alarmUser, updateCb, updateUser), c0) == Run(a, bus.State());
      if reg & ALARM_BIT != 0 && alarmCb != NULL {
        bus.Call(alarmCb, alarmUser);
        ghost var w := bus.State();
        err := bus.UpdateByte(FLAG, ALARM_BIT, 0);
        assert Run(Then(Access(Update(FLAG, ALARM_BIT, 0), false), u), w) == Run(u, bus.State());
      }
      assert Run(WorkerScript(alarm, update, alarmCb, alarmUser, updateCb, updateUser), c0) == Run(u, bus.State());
      if reg & UPDATE_BIT != 0 && updateCb != NULL {
        bus.Call(updateCb, updateUser);
        ghost var w := bus.State();
        err := bus.UpdateByte(FLAG, UPDATE_BIT, 0);
        assert Run(Then(Access(Update(FLAG, UPDATE_BIT, 0), false), Return(0)), w) == Run(Return(0), bus.State());
      }
    }
  }
}
