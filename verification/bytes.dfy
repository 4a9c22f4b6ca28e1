/** Bytes, single bits of a byte, and the 16-bit little-endian two's-complement
    encoding used by the mouse report. */
module Bytes {

  /** One byte of a HID report (an element of a Python `bytearray`). */
  newtype byte = x: int | 0 <= x < 256

  /** A modifier or button mask. The proxy builds these only from bits 0..7
      with `|`, `&` and `~`, so on a Python integer they never leave 0..255
      and eight bits hold them exactly. */
  type Mask = bv8

  /** A bit position inside a byte. */
  type BitIndex = b: nat | b < 8

  /** The mask `1 << b`. */
  function Bit(b: BitIndex): Mask {
    if b == 0 then 0x01 else if b == 1 then 0x02 else if b == 2 then 0x04
    else if b == 3 then 0x08 else if b == 4 then 0x10 else if b == 5 then 0x20
    else if b == 6 then 0x40 else 0x80
  }

  /** Bit `b` of `x` is set. */
  predicate BitSet(x: Mask, b: BitIndex) {
    x & Bit(b) != 0
  }

  /** `Bit` is the shift the source writes. */
  lemma BitIsShift(b: BitIndex)
    ensures Bit(b) == 1 << b
    ensures forall i: BitIndex :: BitSet(Bit(b), i) == (i == b)
  {
  }

  /** Two masks are equal exactly when they agree on every bit. */
  lemma BitsDetermineMask(x: Mask, y: Mask)
    requires forall i: BitIndex :: BitSet(x, i) == BitSet(y, i)
    ensures x == y
  {
    assert BitSet(x, 0) == BitSet(y, 0);
    assert BitSet(x, 1) == BitSet(y, 1);
    assert BitSet(x, 2) == BitSet(y, 2);
    assert BitSet(x, 3) == BitSet(y, 3);
    assert BitSet(x, 4) == BitSet(y, 4);
    assert BitSet(x, 5) == BitSet(y, 5);
    assert BitSet(x, 6) == BitSet(y, 6);
    assert BitSet(x, 7) == BitSet(y, 7);
  }

  /** A mask stored into a report byte. */
  function MaskByte(m: Mask): byte {
    m as int as byte
  }

  /** `v & 0xff` on a Python integer (two's complement of unbounded width):
      the byte that agrees with `v` modulo 256. */
  function LowByte(v: int): (r: byte)
    ensures (v - r as int) % 256 == 0
  {
    assert v == 256 * (v / 256) + v % 256;
    (v % 256) as byte
  }

  /** `(v >> 8) & 0xff` on a Python integer: `>>` floors, as Dafny's `/` does
      for a positive divisor. It is the upper byte of the 16-bit residue. */
  function HighByte(v: int): (r: byte)
    ensures r as int == (v % 65536) / 256
  {
    TwoDigits(v);
    ((v / 256) % 256) as byte
  }

  /** Reads an unsigned 16-bit value as two's complement. */
  function FromUnsigned16(u: int): int {
    if u >= 32768 then u - 65536 else u
  }

  /** `v` truncated to a signed 16-bit value, as a 16-bit register would hold it. */
  function ToInt16(v: int): (w: int)
    ensures -32768 <= w <= 32767
    ensures (w - v) % 65536 == 0
    ensures -32768 <= v <= 32767 ==> w == v
  {
    FromUnsigned16(v % 65536)
  }

  /** The value of two bytes, low byte first, read as unsigned. */
  function Unsigned16(lo: byte, hi: byte): (u: int)
    ensures 0 <= u < 65536
  {
    lo as int + 256 * hi as int
  }

  /** Reads two bytes, low byte first, as a signed 16-bit two's-complement value. */
  function DecodeInt16LE(lo: byte, hi: byte): (v: int)
    ensures -32768 <= v <= 32767
  {
    FromUnsigned16(Unsigned16(lo, hi))
  }

  /** Euclidean division by 256 twice is division by 65536: the two base-256
      digits of `v` hold `v` modulo 2^16. */
  lemma {:induction false} TwoDigits(v: int)
    ensures v % 256 + 256 * ((v / 256) % 256) == v % 65536
  {
    var q, r := v / 256, v % 256;
    assert v == 256 * q + r;
    var q1, q0 := q / 256, q % 256;
    assert q == 256 * q1 + q0;
    assert v == 65536 * q1 + (r + 256 * q0);
    assert 0 <= r + 256 * q0 < 65536;
  }

  /** The low and high bytes of `v` together hold `v` modulo 2^16. */
  lemma {:induction false} LowHighModulo(v: int)
    ensures Unsigned16(LowByte(v), HighByte(v)) == v % 65536
  {
    TwoDigits(v);
  }

  /** Splitting `v` into its low and high bytes and reading them back yields
      `v` truncated to 16 bits; `v` itself when it fits. */
  lemma {:induction false} Int16RoundTrip(v: int)
    ensures DecodeInt16LE(LowByte(v), HighByte(v)) == ToInt16(v)
    ensures -32768 <= v <= 32767 ==> DecodeInt16LE(LowByte(v), HighByte(v)) == v
  {
    LowHighModulo(v);
  }
}
