/**
 * Small vocabulary shared by every RV-8803 driver model: the C byte type,
 * the BCD conversions of Zephyr's `sys/util.h`, the one-hot weekday and its
 * `log2` decoding, nullable pointers and the errno values the drivers return.
 */
module Common {

  // ---------------------------------------------------------------- bytes

  /** A C `uint8_t`; bit-vector arithmetic wraps modulo 256 as the C code
   *  does once a result is stored back into a `uint8_t`. */
  type byte = bv8

  /** Conversion of a C `int` to `uint8_t` (reduction modulo 256). */
  function ToByte(x: int): byte
  {
    (x % 256) as byte
  }

  /** Zephyr's `bin2bcd`: tens digit in the high nibble, units in the low. */
  function Bin2Bcd(b: byte): byte
  {
    ((b / 10) << 4) | (b % 10)
  }

  /** Zephyr's `bcd2bin`. */
  function Bcd2Bin(b: byte): byte
  {
    ((b >> 4) * 10) + (b & 0x0F)
  }

  /** A byte whose two nibbles are decimal digits. */
  predicate IsBcd(b: byte)
  {
    b >> 4 <= 9 && b & 0x0F <= 9
  }

  /** `(1 << w)` for a weekday. The C shift is undefined for a negative
   *  count and yields bits above bit 6 for 7..30; the drivers mask with
   *  0x7F afterwards, so every out-of-range weekday is modelled as 0. */
  function OneHot(w: int): byte
  {
    if 0 <= w < 7 then (1 as byte) << w else 0
  }

  /** `log2` of `math.h` converted back to an integer: the index of the
   *  highest set bit. `log2(0)` has no integer value in C; it is -1 here. */
  function Log2(b: byte): int
  {
    if b >= 0x80 then 7
    else if b >= 0x40 then 6
    else if b >= 0x20 then 5
    else if b >= 0x10 then 4
    else if b >= 0x08 then 3
    else if b >= 0x04 then 2
    else if b >= 0x02 then 1
    else if b == 0x01 then 0
    else -1
  }

  /** The largest value a `width`-limited BCD field can hold: the masks the
   *  drivers apply keep 7, 6, 5 or 8 bits of the BCD byte. */
  function FieldMax(bits: byte): int
  {
    if bits == 0x7F then 79
    else if bits == 0x3F then 39
    else if bits == 0x1F then 19
    else if bits == 0xFF then 99
    else -1
  }

  /** The byte values the field `bits` can hold as BCD, stated on bytes. */
  predicate FitsField(b: byte, bits: byte)
  {
    (bits == 0x7F && b <= 79) || (bits == 0x3F && b <= 39) ||
    (bits == 0x1F && b <= 19) || (bits == 0xFF && b <= 99)
  }

  lemma ModSmall(x: int)
    requires 0 <= x < 256
    ensures x % 256 == x
  {
  }

  /** Converting a byte to `int` and back is the identity. */
  lemma ToByteOfByte(b: byte)
    ensures ToByte(b as int) == b
  {
    ModSmall(b as int);
  }

  /** A value the field can hold converts to a byte the field can hold. */
  lemma ToByteFits(v: int, bits: byte)
    requires 0 <= v <= FieldMax(bits)
    ensures ToByte(v) as int == v && FitsField(ToByte(v), bits)
  {
    ModSmall(v);
  }

  /** The BCD encoding of a byte the field can hold is a BCD byte inside the
   *  field that decodes to the byte. */
  lemma BcdOfFitting(b: byte, bits: byte)
    requires FitsField(b, bits)
    ensures Bin2Bcd(b) & bits == Bin2Bcd(b) && IsBcd(Bin2Bcd(b)) && Bcd2Bin(Bin2Bcd(b)) == b
  {
  }

  /** Encoding a value in range as masked BCD and decoding it again gives
   *  the value back; the encoding has no bit outside the field and is a
   *  BCD byte. */
  lemma BcdFieldRoundTrip(v: int, bits: byte)
    requires 0 <= v <= FieldMax(bits)
    ensures Bin2Bcd(ToByte(v)) & bits == Bin2Bcd(ToByte(v)) && IsBcd(Bin2Bcd(ToByte(v)))
    ensures Bcd2Bin(Bin2Bcd(ToByte(v)) & bits) as int == v
  {
    ToByteFits(v, bits);
    BcdOfFitting(ToByte(v), bits);
  }

  /** Decoding a BCD byte and encoding the result gives the byte back. */
  lemma BcdByteRoundTrip(b: byte)
    requires IsBcd(b)
    ensures Bcd2Bin(b) <= 99 && Bin2Bcd(Bcd2Bin(b)) == b
  {
  }

  /** The weekday bit decodes back to its weekday. */
  lemma OneHotRoundTrip(w: int)
    requires 0 <= w < 7
    ensures Log2(OneHot(w) & 0x7F) == w
  {
  }

  // -------------------------------------------------------------- pointers

  /** A C pointer that may be NULL, for the structures the drivers receive. */
  datatype Option<T> = None | Some(value: T)

  /** A function or `void *` pointer the drivers only store and pass on;
   *  0 stands for NULL. */
  type Ptr = nat

  const NULL: Ptr := 0

  // ----------------------------------------------------------------- errno

  /** Zephyr's errno values (minimal libc numbering). */
  const EIO: int := 5
  const EINVAL: int := 22
  const ENOSR: int := 63
  const EALREADY: int := 120
  const ENOTSUP: int := 134

  /** A C `uint32_t` result: the conversion of an `int` reduces modulo 2^32. */
  function ToU32(x: int): int
  {
    x % 0x1_0000_0000
  }
}
