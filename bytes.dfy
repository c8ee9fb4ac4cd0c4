/** Fixed-width integers read from a byte stream, and the arithmetic that the
  * C++ decoder performs implicitly (signed reads, 32-bit wrap-around). */
module Bytes {
  type byte = b: int | 0 <= b < 256

  function Min(a: int, b: int): (r: int)
    ensures r <= a && r <= b && (r == a || r == b)
  {
    if a < b then a else b
  }

  function Max(a: int, b: int): (r: int)
    ensures r >= a && r >= b && (r == a || r == b)
  {
    if a < b then b else a
  }

  /** Where a stream positioned at `p` stands after consuming `n` more bytes:
    * a QDataStream over a file never moves past the end of the file. */
  function Advance(data: seq<byte>, p: nat, n: nat): (q: nat)
    ensures q <= |data|
    ensures q == p + n || q == |data|
    ensures p <= |data| ==> p <= q
  {
    Min(p + n, |data|)
  }

  /** The stream position that corresponds to the offset `q` a sequence of
    * reads and skips would have reached if the data were endless. */
  function Clamp(data: seq<byte>, q: nat): (p: nat)
    ensures p <= |data| && (p == q || p == |data|)
    ensures q <= |data| ==> p == q
  {
    Min(q, |data|)
  }

  /** The byte at index `i`, as an unbounded integer for arithmetic. */
  function B(data: seq<byte>, i: nat): int
    requires i < |data|
  {
    data[i]
  }

  /** An unsigned byte at offset `p`; a read past the end yields 0. */
  function U8(data: seq<byte>, p: nat): (v: byte)
    ensures p < |data| ==> v == data[p]
    ensures p >= |data| ==> v == 0
  {
    if p < |data| then data[p] else 0
  }

  /** An unsigned 16-bit value at offset `p` in the stream's byte order; a read
    * that does not fit in the data yields 0. */
  function U16(data: seq<byte>, le: bool, p: nat): (v: int)
    ensures 0 <= v < 0x1_0000
    ensures p + 2 > |data| ==> v == 0
  {
    if p + 2 <= |data| then
      (if le then B(data, p) + 256 * B(data, p + 1) else 256 * B(data, p) + B(data, p + 1))
    else 0
  }

  /** An unsigned 32-bit value at offset `p` in the stream's byte order. */
  function U32(data: seq<byte>, le: bool, p: nat): (v: int)
    ensures 0 <= v < 0x1_0000_0000
    ensures p + 4 > |data| ==> v == 0
  {
    if p + 4 <= |data| then
      (if le then
         U16(data, true, p) + 0x1_0000 * U16(data, true, p + 2)
       else
         0x1_0000 * U16(data, false, p) + U16(data, false, p + 2))
    else 0
  }

  /** Two's-complement reinterpretation of an unsigned `bits`-wide value. */
  function Signed(v: int, half: int): (s: int)
    requires 0 < half && 0 <= v < 2 * half
    ensures -half <= s < half
    ensures s == v || s == v - 2 * half
  {
    if v >= half then v - 2 * half else v
  }

  function I8(v: byte): (s: int)
    ensures -0x80 <= s < 0x80 && s % 0x100 == v
  {
    Signed(v, 0x80)
  }

  function I16(v: int): (s: int)
    requires 0 <= v < 0x1_0000
    ensures -0x8000 <= s < 0x8000 && s % 0x1_0000 == v
  {
    Signed(v, 0x8000)
  }

  /** Conversion of an arbitrary integer to a 32-bit signed int, as a C++
    * assignment of an unsigned expression to `int` or `qint32` does. */
  function Int32(x: int): (s: int)
    ensures -0x8000_0000 <= s < 0x8000_0000
    ensures (s - x) % 0x1_0000_0000 == 0
  {
    Signed(x % 0x1_0000_0000, 0x8000_0000)
  }

  /** Subtraction of unsigned 32-bit values, wrapping around below zero. */
  function WrapSub32(a: int, b: int): (r: nat)
    requires 0 <= a < 0x1_0000_0000 && 0 <= b < 0x1_0000_0000
    ensures r < 0x1_0000_0000 && (r == a - b || r == a - b + 0x1_0000_0000)
  {
    if a >= b then a - b else a - b + 0x1_0000_0000
  }

  /** It is subtraction modulo 2^32. */
  lemma WrapSub32IsModular(a: int, b: int)
    requires 0 <= a < 0x1_0000_0000 && 0 <= b < 0x1_0000_0000
    ensures WrapSub32(a, b) == (a - b) % 0x1_0000_0000
  {
  }

  lemma U32LittleEndian(data: seq<byte>, p: nat)
    requires p + 4 <= |data|
    ensures U32(data, true, p) == B(data, p) + 0x100 * B(data, p + 1) + 0x1_0000 * B(data, p + 2) + 0x100_0000 * B(data, p + 3)
  {
  }

  /** A value read in one byte order is the value of the reversed bytes read in
    * the other. */
  lemma U16ByteSwap(data: seq<byte>, p: nat)
    requires p + 2 <= |data|
    ensures U16(data, true, p) == U16([data[p + 1], data[p]], false, 0)
  {
  }

  /** Reading at a position reached by `Advance` gives the value the same read
    * at the unclamped offset gives: past the end both are 0. */
  lemma ReadAfterAdvance(data: seq<byte>, le: bool, p: nat, n: nat)
    ensures U8(data, Advance(data, p, n)) == U8(data, p + n)
    ensures U16(data, le, Advance(data, p, n)) == U16(data, le, p + n)
    ensures U32(data, le, Advance(data, p, n)) == U32(data, le, p + n)
  {
  }

  /** Consuming `a` and then `b` bytes is consuming `a + b` bytes. */
  lemma AdvanceAdditive(data: seq<byte>, p: nat, a: nat, b: nat)
    ensures Advance(data, Advance(data, p, a), b) == Advance(data, p, a + b)
  {
  }
}
