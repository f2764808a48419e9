/**
 * The multi-function device under the RTC, counter and clock drivers: the
 * fixed-capacity array of work items the interrupt line fans out to, and
 * the battery check that reads and acknowledges the low-voltage flags.
 * The register accessors it exports are the `RegisterFile` methods.
 */
module Mfd {
  import opened Common
  import opened Bus

  // ------------------------------------------------------- irq listeners

  /** The entries of `s` that are not NULL, in their order. */
  function NonNull(s: seq<Ptr>): (r: seq<Ptr>)
    ensures |r| <= |s|
    ensures forall i :: 0 <= i < |r| ==> r[i] != NULL
  {
    if s == [] then []
    else (if s[0] != NULL then [s[0]] else []) + NonNull(s[1..])
  }

  /** Extending a sequence adds its last entry to the fan-out, when that is
   *  not NULL. */
  lemma {:induction false} NonNullSnoc(s: seq<Ptr>, x: Ptr)
    ensures NonNull(s + [x]) == NonNull(s) + (if x != NULL then [x] else [])
  {
    if s == [] {
      assert s + [x] == [x];
      assert NonNull([x]) == (if x != NULL then [x] else []) + NonNull([]);
    } else {
      assert (s + [x])[1..] == s[1..] + [x];
      NonNullSnoc(s[1..], x);
    }
  }

  /** The fan-out holds exactly the non-NULL entries. */
  lemma {:induction false} NonNullMembers(s: seq<Ptr>, x: Ptr)
    ensures x in NonNull(s) <==> x in s && x != NULL
  {
    if s != [] {
      assert s == [s[0]] + s[1..];
      NonNullMembers(s[1..], x);
    }
  }

  /** `struct rv8803_irq`: the listener array of capacity `max_workers`
   *  and the count of listeners appended so far. */
  class IrqRegistry {
    const workers: array<Ptr>
    var index: int

    ghost predicate Valid()
      reads this
    {
      0 <= index <= workers.Length
    }

    /** The array the device definition sets aside, with no listeners. */
    constructor (maxWorkers: nat)
      ensures Valid() && index == 0 && workers.Length == maxWorkers && fresh(workers)
      ensures forall i :: 0 <= i < maxWorkers ==> workers[i] == NULL
    {
      workers := new Ptr[maxWorkers](_ => NULL);
      index := 0;
    }

    /** `rv8803_append_irq_listener` with interrupt support: a full array
     *  refuses the listener and changes nothing; otherwise the listener
     *  takes the next slot. */
    method Append(worker: Ptr) returns (err: int)
      requires Valid()
      modifies this, workers
      ensures Valid()
      ensures old(index) >= workers.Length ==>
                err == -ENOSR && index == old(index) && workers[..] == old(workers[..])
      ensures old(index) < workers.Length ==>
                err == 0 && index == old(index) + 1 && workers[..] == old(workers[..])[old(index) := worker]
    {
      if index >= workers.Length {
        return -ENOSR;
      }
      workers[index] := worker;
      index := index + 1;
      return 0;
    }

    /** The work items `rv8803_gpio_callback_handler` submits, in the
     *  order it submits them. */
    method FanOut() returns (submitted: seq<Ptr>)
      requires Valid()
      ensures submitted == NonNull(workers[..index])
    {
      submitted := [];
      var i := 0;
      while i < index
        invariant 0 <= i <= index
        invariant submitted == NonNull(workers[..i])
      {
        assert workers[..i + 1] == workers[..i] + [workers[i]];
        NonNullSnoc(workers[..i], workers[i]);
        if workers[i] != NULL {
          submitted := submitted + [workers[i]];
        }
        i := i + 1;
      }
      assert workers[..index] == workers[..i];
    }
  }

  /** After a successful append the fan-out is the previous one followed by
   *  the new listener, when it is not NULL. */
  lemma AppendThenFanOut(before: seq<Ptr>, index: nat, worker: Ptr)
    requires index < |before|
    ensures NonNull(before[index := worker][..index + 1])
         == NonNull(before[..index]) + (if worker != NULL then [worker] else [])
  {
    assert before[index := worker][..index + 1] == before[..index] + [worker];
    NonNullSnoc(before[..index], worker);
  }

  /** `rv8803_append_irq_listener` without interrupt support. */
  function AppendWithoutIrq(worker: Ptr): (err: int)
    ensures err == -ENOTSUP
  {
    -ENOTSUP
  }

  /** `rv8803_irq_gpio_is_available` without interrupt support. */
  function IrqGpioAvailableWithoutIrq(): (available: bool)
    ensures !available
  {
    false
  }

  // ----------------------------------------------------- battery state

  /** Flag register bit 0 (V1F: low voltage) and bit 1 (V2F: the
   *  oscillator stopped, data lost). */
  const LOW_VOLTAGE_1: byte := 0x01
  const LOW_VOLTAGE_2: byte := 0x02

  /** `struct rv8803_battery`. */
  datatype Battery = Battery(powerOnReset: bool, lowBattery: bool)

  /** The battery state a flag byte shows. */
  function BatteryOf(flag: byte): Battery
  {
    Battery((flag & LOW_VOLTAGE_2) >> 1 != 0, flag & LOW_VOLTAGE_1 != 0)
  }

  /** The flag byte written back: V2F cleared when set, else V1F cleared
   *  when set, else nothing written. */
  function Acknowledgement(flag: byte): Option<byte>
  {
    if BatteryOf(flag).powerOnReset then Some(flag & !LOW_VOLTAGE_2)
    else if BatteryOf(flag).lowBattery then Some(flag & !LOW_VOLTAGE_1)
    else None
  }

  /** The state is read from bits 1 and 0, and the write-back clears exactly
   *  one set flag, V2F first, so a power-on reset keeps its low-voltage
   *  flag; nothing is written when neither is set. */
  lemma AcknowledgementBits(flag: byte)
    ensures BatteryOf(flag).powerOnReset <==> flag & LOW_VOLTAGE_2 != 0
    ensures BatteryOf(flag).lowBattery <==> flag & LOW_VOLTAGE_1 != 0
    ensures Acknowledgement(flag).None? <==> flag & (LOW_VOLTAGE_1 | LOW_VOLTAGE_2) == 0
    ensures flag & LOW_VOLTAGE_2 != 0 ==>
              Acknowledgement(flag) == Some(flag & !LOW_VOLTAGE_2) &&
              Acknowledgement(flag).value & LOW_VOLTAGE_1 == flag & LOW_VOLTAGE_1
    ensures flag & LOW_VOLTAGE_2 == 0 && flag & LOW_VOLTAGE_1 != 0 ==>
              Acknowledgement(flag) == Some(flag & !LOW_VOLTAGE_1)
  {
  }

  /** Detecting again after an acknowledgement: a power-on reset is no longer
   *  reported, and the low-voltage flag survives only a power-on reset's
   *  acknowledgement; after a clear flag byte nothing is reported twice. */
  lemma AcknowledgementSettles(flag: byte)
    requires Acknowledgement(flag).Some?
    ensures !BatteryOf(Acknowledgement(flag).value).powerOnReset
    ensures BatteryOf(Acknowledgement(flag).value).lowBattery
        <==> BatteryOf(flag).powerOnReset && BatteryOf(flag).lowBattery
  {
  }

  /** The transactions of `rv8803_detect_battery_state`, given the
   *  acknowledgement the flag byte it will read calls for. */
  function BatteryScript(ack: Option<byte>): Script
  {
    Then(Access(Read(FLAG, 1), true), Acknowledge(ack))
  }

  /** The write-back, when there is one; its error is returned. */
  function Acknowledge(ack: Option<byte>): Script
  {
    if ack.Some? then Then(Access(Write(FLAG, [ack.value]), true), Return(0)) else Return(0)
  }

  /** `struct rv8803_data` as far as the battery check uses it. */
  class DeviceData {
    var bat: Battery

    constructor ()
      ensures bat == Battery(false, false)
    {
      bat := Battery(false, false);
    }

    /** `rv8803_detect_battery_state`: the state is stored as soon as the
     *  flag register is read, then the flag it reports is cleared on the
     *  chip. */
    method DetectBatteryState(bus: RegisterFile) returns (err: int)
      requires bus.Valid()
      modifies this, bus
      ensures bus.Valid()
      ensures Outcome(err, bus.State()) == Run(BatteryScript(Acknowledgement(old(bus.regs[FLAG]))), old(bus.State()))
      ensures Head(old(bus.faults)) >= 0 ==> bat == BatteryOf(old(bus.regs[FLAG]))
      ensures Head(old(bus.faults)) < 0 ==> bat == old(bat)
    {
      ghost var c0 := bus.State();
      ghost var ack := Acknowledgement(c0.regs[FLAG]);
      ReadPlain(c0, FLAG, 1);
      var value;
      err, value := bus.ReadByte(FLAG);
      if err < 0 {
        return err;
      }
      ghost var c1 := bus.State();
      assert Run(BatteryScript(ack), c0) == Run(Acknowledge(ack), c1);
      bat := BatteryOf(value);
      if bat.powerOnReset {
        value := value & !LOW_VOLTAGE_2;
        assert ack == Some(value);
        StepLast(c1, Write(FLAG, [value]));
        err := bus.WriteByte(FLAG, value);
        if err < 0 {
          return err;
        }
      } else if bat.lowBattery {
        value := value & !LOW_VOLTAGE_1;
        assert ack == Some(value);
        StepLast(c1, Write(FLAG, [value]));
        err := bus.WriteByte(FLAG, value);
        if err < 0 {
          return err;
        }
      } else {
        assert ack == None;
      }
      return 0;
    }
  }

  /** On a bus that does not fail, the check changes only the flag
   *  register, and only by its acknowledgement. */
  lemma BatteryClean(c: Chip)
    requires Good(c) && Clean(c, 2)
    ensures Run(BatteryScript(Acknowledgement(c.regs[FLAG])), c).err == 0
    ensures Run(BatteryScript(Acknowledgement(c.regs[FLAG])), c).chip.regs
         == match Acknowledgement(c.regs[FLAG])
            case Some(v) => c.regs[FLAG := v]
            case None => c.regs
  {
    AcknowledgeClean(Acknowledgement(c.regs[FLAG]), c);
  }

  /** A served check writes its acknowledgement, if any, and nothing else. */
  lemma AcknowledgeClean(ack: Option<byte>, c: Chip)
    requires Good(c) && Clean(c, 2)
    ensures Run(BatteryScript(ack), c).err == 0
    ensures Run(BatteryScript(ack), c).chip.regs == if ack.Some? then c.regs[FLAG := ack.value] else c.regs
  {
    var s := BatteryScript(ack);
    var rest := Acknowledge(ack);
    assert Accesses(rest) <= 1;
    assert Wf(rest);
    assert Code(rest) == 0;
    assert Accesses(s) <= 2 && Wf(s) && Code(s) == 0;
    RunClean(s, c);
    ServeRead(FLAG, 1, true, rest, c);
    var c1 := c.(faults := Tail(c.faults), trace := c.trace + [Ok(Read(FLAG, 1), Reply(c.regs, Read(FLAG, 1)))]);
    if ack.Some? {
      ServeWrite(FLAG, [ack.value], true, Return(0), c1);
      assert Store(c.regs, FLAG, [ack.value]) == c.regs[FLAG := ack.value];
    }
  }
}
