/**
 * The RV-8803 as seen over I2C: sixteen 8-bit registers, a bus whose every
 * transaction may fail with a negative code, a calendar that keeps counting
 * between transactions, and the log of what the drivers did.
 *
 * `Chip` is the whole observable state as a value; `Fire` is one bus
 * transaction and `Run` executes a straight-line `Script` of transactions
 * the way the drivers do: an access whose error is checked ends the script
 * with that error, an unchecked one is logged and the script goes on.
 * `RegisterFile` is the same state as a mutable object whose methods are the
 * Zephyr I2C calls the drivers make.
 */
module Bus {
  import opened Common

  // -------------------------------------------------------- register map

  const REG_COUNT: nat := 16
  const SECONDS: nat := 0x00
  const CALENDAR_LEN: nat := 7
  const ALARM_MINUTES: nat := 0x08
  const TIMER_COUNTER_0: nat := 0x0B
  const TIMER_COUNTER_1: nat := 0x0C
  const EXTENSION: nat := 0x0D
  const FLAG: nat := 0x0E
  const CONTROL: nat := 0x0F

  // ------------------------------------------------------------ requests

  /** One I2C transaction with the chip. `Transfer` is a raw write whose
   *  first byte selects the register the following bytes are stored from. */
  datatype Request =
    | Read(addr: nat, len: nat)
    | Write(addr: nat, data: seq<byte>)
    | Update(addr: nat, mask: byte, value: byte)
    | Transfer(frame: seq<byte>)

  /** What the log records: a transaction that succeeded (with the bytes a
   *  read returned), one that failed, or a call into a user callback. */
  datatype Event =
    | Ok(req: Request, data: seq<byte>)
    | Err(req: Request, code: int)
    | Called(fn: Ptr, user: Ptr)

  /** Seven calendar bytes, as the seconds-to-years registers hold them. */
  type Image = s: seq<byte> | |s| == CALENDAR_LEN witness [0, 0, 0, 0, 0, 0, 0]

  /** The registers, the calendar values the oscillator will present at the
   *  next reads from the seconds register, the outcome codes the bus will
   *  give the next transactions (negative: failure), and the log. */
  datatype Chip = Chip(regs: seq<byte>, clock: seq<Image>, faults: seq<int>, trace: seq<Event>)

  predicate Good(c: Chip)
  {
    |c.regs| == REG_COUNT
  }

  /** The registers a request addresses lie inside the register file. */
  predicate Fits(r: Request)
  {
    match r
    case Read(a, n) => a + n <= REG_COUNT
    case Write(a, d) => a + |d| <= REG_COUNT
    case Update(a, _, _) => a < REG_COUNT
    case Transfer(f) => |f| >= 1 && f[0] as int + |f| - 1 <= REG_COUNT
  }

  /** Store `d` into the registers from address `a` on (nothing outside). */
  function Store(regs: seq<byte>, a: nat, d: seq<byte>): (regs': seq<byte>)
    ensures |regs'| == |regs|
  {
    if a + |d| <= |regs| then regs[..a] + d + regs[a + |d|..] else regs
  }

  /** The masked write of `i2c_reg_update_byte_dt`. */
  function Masked(prior: byte, mask: byte, value: byte): byte
  {
    (prior & !mask) | (value & mask)
  }

  /** The registers after a successful request. */
  function Effect(regs: seq<byte>, r: Request): (regs': seq<byte>)
    ensures |regs'| == |regs|
  {
    match r
    case Read(_, _) => regs
    case Write(a, d) => Store(regs, a, d)
    case Update(a, m, v) => if a < |regs| then regs[a := Masked(regs[a], m, v)] else regs
    case Transfer(f) => if f == [] then regs else Store(regs, f[0] as int, f[1..])
  }

  /** The bytes a successful request returns. */
  function Reply(regs: seq<byte>, r: Request): seq<byte>
  {
    match r
    case Read(a, n) => if a + n <= |regs| then regs[a..a + n] else []
    case _ => []
  }

  function Head(f: seq<int>): int
  {
    if f == [] then 0 else f[0]
  }

  function Tail(f: seq<int>): seq<int>
  {
    if f == [] then [] else f[1..]
  }

  /** A read from the seconds register first lets the calendar advance to
   *  its next value. */
  function Tick(c: Chip, r: Request): (c': Chip)
    ensures |c'.regs| == |c.regs|
  {
    if r.Read? && r.addr == SECONDS && c.clock != [] then
      c.(regs := Store(c.regs, SECONDS, c.clock[0]), clock := c.clock[1..])
    else c
  }

  /** The calendar bytes the `k`-th read from the seconds register returns. */
  function Seen(c: Chip, k: nat): (regs: Image)
    requires Good(c)
  {
    if k < |c.clock| then c.clock[k]
    else if c.clock == [] then c.regs[..CALENDAR_LEN]
    else c.clock[|c.clock| - 1]
  }

  datatype Outcome = Outcome(err: int, chip: Chip)

  /** One transaction: it consumes one outcome code; a request outside the
   *  register file fails with -EIO. */
  function Fire(c: Chip, r: Request): (o: Outcome)
    ensures o.err <= 0
    ensures |o.chip.regs| == |c.regs|
  {
    var c1 := Tick(c, r);
    var f := if Fits(r) then Head(c1.faults) else -EIO;
    if f < 0 then
      Outcome(f, c1.(faults := Tail(c1.faults), trace := c1.trace + [Err(r, f)]))
    else
      Outcome(0, c1.(regs := Effect(c1.regs, r), faults := Tail(c1.faults),
                     trace := c1.trace + [Ok(r, Reply(c1.regs, r))]))
  }

  /** The data a successful transaction returns. */
  function Data(c: Chip, r: Request): seq<byte>
  {
    Reply(Tick(c, r).regs, r)
  }

  // ------------------------------------------------------------- scripts

  /** A bus access whose error is `checked` (returned at once) or ignored,
   *  or a call into a registered callback. */
  datatype Action = Access(req: Request, checked: bool) | Invoke(fn: Ptr, user: Ptr)

  /** A straight-line driver operation ending in its return value. */
  datatype Script = Return(code: int) | Then(action: Action, rest: Script)

  /** Run a script: the result and the final state. */
  function Run(s: Script, c: Chip): (o: Outcome)
    ensures |o.chip.regs| == |c.regs|
  {
    match s
    case Return(code) => Outcome(code, c)
    case Then(Invoke(fn, user), rest) => Run(rest, c.(trace := c.trace + [Called(fn, user)]))
    case Then(Access(r, checked), rest) =>
      var o := Fire(c, r);
      if o.err < 0 && checked then o else Run(rest, o.chip)
  }

  /** The bus gives success to the next `n` transactions. */
  predicate Clean(c: Chip, n: nat)
  {
    forall i :: 0 <= i < n && i < |c.faults| ==> c.faults[i] >= 0
  }

  /** Every access of the script addresses registers inside the file. */
  predicate Wf(s: Script)
  {
    match s
    case Return(_) => true
    case Then(Invoke(_, _), rest) => Wf(rest)
    case Then(Access(r, _), rest) => Fits(r) && Wf(rest)
  }

  /** The number of bus transactions of a script that runs to its end. */
  function Accesses(s: Script): nat
  {
    match s
    case Return(_) => 0
    case Then(Invoke(_, _), rest) => Accesses(rest)
    case Then(Access(_, _), rest) => 1 + Accesses(rest)
  }

  /** The code a script returns when it runs to its end. */
  function Code(s: Script): int
  {
    match s
    case Return(code) => code
    case Then(_, rest) => Code(rest)
  }

  /** The state after a script on a bus that serves every transaction. */
  function Serve(s: Script, c: Chip): Chip
  {
    match s
    case Return(_) => c
    case Then(Invoke(fn, user), rest) => Serve(rest, c.(trace := c.trace + [Called(fn, user)]))
    case Then(Access(r, _), rest) =>
      var t := Tick(c, r);
      Serve(rest, t.(regs := Effect(t.regs, r), faults := Tail(t.faults),
                     trace := t.trace + [Ok(r, Reply(t.regs, r))]))
  }

  /** After one transaction the bus owes one outcome less. */
  lemma CleanShift(c: Chip, r: Request, n: nat)
    requires Clean(c, n + 1)
    ensures Head(Tick(c, r).faults) >= 0 && Clean(Fire(c, r).chip, n)
  {
  }

  /** On a bus that serves the next transactions, a script runs to its
   *  end, through the states `Serve` describes. */
  lemma {:induction false} RunClean(s: Script, c: Chip)
    requires Wf(s) && Clean(c, Accesses(s))
    ensures Run(s, c) == Outcome(Code(s), Serve(s, c))
    decreases s
  {
    match s
    case Return(_) =>
    case Then(Invoke(fn, user), rest) =>
      RunClean(rest, c.(trace := c.trace + [Called(fn, user)]));
    case Then(Access(r, _), rest) =>
      CleanShift(c, r, Accesses(rest));
      RunClean(rest, Fire(c, r).chip);
  }

  /** A served write stores its bytes and is logged. */
  lemma ServeWrite(a: nat, d: seq<byte>, checked: bool, rest: Script, c: Chip)
    ensures Serve(Then(Access(Write(a, d), checked), rest), c)
         == Serve(rest, c.(regs := Store(c.regs, a, d), faults := Tail(c.faults),
                           trace := c.trace + [Ok(Write(a, d), [])]))
  {
  }

  /** A served masked write changes the one register it addresses and is
   *  logged. */
  lemma ServeUpdate(a: nat, m: byte, v: byte, checked: bool, rest: Script, c: Chip)
    ensures Serve(Then(Access(Update(a, m, v), checked), rest), c)
         == Serve(rest, c.(regs := Effect(c.regs, Update(a, m, v)), faults := Tail(c.faults),
                           trace := c.trace + [Ok(Update(a, m, v), [])]))
  {
  }

  /** A masked write takes the bits of `mask` from `value` and keeps every
   *  other bit of the register. */
  lemma MaskedBits(prior: byte, mask: byte, value: byte)
    ensures Masked(prior, mask, value) & mask == value & mask
    ensures Masked(prior, mask, value) & !mask == prior & !mask
  {
  }

  /** A served read outside the calendar changes no register and is logged
   *  with the bytes it returned. */
  lemma ServeRead(a: nat, n: nat, checked: bool, rest: Script, c: Chip)
    requires a != SECONDS
    ensures Serve(Then(Access(Read(a, n), checked), rest), c)
         == Serve(rest, c.(faults := Tail(c.faults), trace := c.trace + [Ok(Read(a, n), Reply(c.regs, Read(a, n)))]))
  {
  }

  /** A failed access whose error is checked ends the script with that
   *  error and changes no register. */
  lemma StepFails(c: Chip, r: Request, rest: Script)
    requires Fits(r) && Head(Tick(c, r).faults) < 0
    ensures Run(Then(Access(r, true), rest), c).err == Head(Tick(c, r).faults)
    ensures Run(Then(Access(r, true), rest), c).chip.regs == Tick(c, r).regs
  {
  }

  /** A script's last access, checked, ends it with that access's result. */
  lemma StepLast(c: Chip, r: Request)
    ensures Run(Then(Access(r, true), Return(0)), c) == Fire(c, r)
  {
  }

  /** A read outside the calendar returns the registers as they are. */
  lemma ReadPlain(c: Chip, a: nat, n: nat)
    requires Good(c) && a != SECONDS && a + n <= REG_COUNT
    ensures Data(c, Read(a, n)) == c.regs[a..a + n]
  {
  }

  // ------------------------------------------------------- the I2C target

  /** The chip behind Zephyr's `i2c_*_dt` calls. */
  class RegisterFile {
    var regs: seq<byte>
    var clock: seq<Image>
    var faults: seq<int>
    var trace: seq<Event>

    ghost predicate Valid()
      reads this
    {
      Good(State())
    }

    function State(): Chip
      reads this
    {
      Chip(regs, clock, faults, trace)
    }

    constructor (regs0: seq<byte>, clock0: seq<Image>, faults0: seq<int>)
      requires Good(Chip(regs0, clock0, faults0, []))
      ensures Valid() && State() == Chip(regs0, clock0, faults0, [])
    {
      regs, clock, faults, trace := regs0, clock0, faults0, [];
    }

    /** One transaction. */
    method Transact(r: Request) returns (err: int, data: seq<byte>)
      requires Valid()
      modifies this
      ensures Valid()
      ensures Outcome(err, State()) == Fire(old(State()), r)
      ensures err == 0 ==> Fits(r) && data == Data(old(State()), r)
    {
      if r.Read? && r.addr == SECONDS && clock != [] {
        regs, clock := Store(regs, SECONDS, clock[0]), clock[1..];
      }
      err := if Fits(r) then Head(faults) else -EIO;
      faults := Tail(faults);
      if err < 0 {
        data := [];
        trace := trace + [Err(r, err)];
      } else {
        err := 0;
        data := Reply(regs, r);
        trace := trace + [Ok(r, data)];
        regs := Effect(regs, r);
      }
    }

    /** `i2c_reg_read_byte_dt`. */
    method ReadByte(addr: nat) returns (err: int, value: byte)
      requires Valid() && addr < REG_COUNT
      modifies this
      ensures Valid()
      ensures Outcome(err, State()) == Fire(old(State()), Read(addr, 1))
      ensures err == 0 ==> value == Data(old(State()), Read(addr, 1))[0]
    {
      var data;
      err, data := Transact(Read(addr, 1));
      value := if err == 0 then data[0] else 0;
    }

    /** `i2c_reg_write_byte_dt`. */
    method WriteByte(addr: nat, value: byte) returns (err: int)
      requires Valid()
      modifies this
      ensures Valid()
      ensures Outcome(err, State()) == Fire(old(State()), Write(addr, [value]))
    {
      var data;
      err, data := Transact(Write(addr, [value]));
    }

    /** `i2c_reg_update_byte_dt`, taken as one atomic masked write. */
    method UpdateByte(addr: nat, mask: byte, value: byte) returns (err: int)
      requires Valid()
      modifies this
      ensures Valid()
      ensures Outcome(err, State()) == Fire(old(State()), Update(addr, mask, value))
    {
      var data;
      err, data := Transact(Update(addr, mask, value));
    }

    /** `i2c_burst_read_dt`. */
    method BurstRead(addr: nat, len: nat) returns (err: int, data: seq<byte>)
      requires Valid()
      modifies this
      ensures Valid()
      ensures Outcome(err, State()) == Fire(old(State()), Read(addr, len))
      ensures err == 0 ==> Fits(Read(addr, len)) && data == Data(old(State()), Read(addr, len))
    {
      err, data := Transact(Read(addr, len));
    }

    /** `i2c_burst_write_dt`. */
    method BurstWrite(addr: nat, data: seq<byte>) returns (err: int)
      requires Valid()
      modifies this
      ensures Valid()
      ensures Outcome(err, State()) == Fire(old(State()), Write(addr, data))
    {
      var reply;
      err, reply := Transact(Write(addr, data));
    }

    /** `i2c_write_dt`: a raw write whose first byte is the register address. */
    method WriteRaw(frame: seq<byte>) returns (err: int)
      requires Valid()
      modifies this
      ensures Valid()
      ensures Outcome(err, State()) == Fire(old(State()), Transfer(frame))
    {
      var reply;
      err, reply := Transact(Transfer(frame));
    }

    /** A call into a registered callback, which the log records. */
    method Call(fn: Ptr, user: Ptr)
      requires Valid()
      modifies this
      ensures Valid()
      ensures State() == old(State()).(trace := old(trace) + [Called(fn, user)])
    {
      trace := trace + [Called(fn, user)];
    }
  }
}
