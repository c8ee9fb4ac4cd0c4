/** The read side of a QDataStream over an in-memory copy of the file: a byte
  * position and a byte order. A read that runs past the end yields 0 and
  * leaves the position at the end; skipping never passes the end.
  *
  * Every read takes, as a ghost argument, the offset `q` that the reads so
  * far would have reached in endless data; the real position is that offset
  * clamped to the end. This lets each decoder be specified by fields at
  * fixed offsets from its start, whether or not the data runs out. */
module Cursors {
  import opened Bytes

  class Cursor {
    const data: seq<byte>
    var pos: nat
    var littleEndian: bool

    ghost predicate Valid()
      reads this
    {
      pos <= |data|
    }

    /** A fresh stream starts at offset 0 in big-endian order, QDataStream's default. */
    constructor (d: seq<byte>)
      ensures Valid() && data == d && pos == 0 && !littleEndian
    {
      data := d;
      pos := 0;
      littleEndian := false;
    }

    predicate AtEnd()
      reads this
    {
      pos >= |data|
    }

    method SetByteOrder(le: bool)
      modifies this`littleEndian
      ensures littleEndian == le
    {
      littleEndian := le;
    }

    method ReadU8(ghost q: nat) returns (v: byte)
      requires Valid() && pos == Clamp(data, q)
      modifies this`pos
      ensures Valid() && pos == Clamp(data, q + 1)
      ensures v == U8(data, q)
    {
      if pos < |data| {
        v := data[pos];
        pos := pos + 1;
      } else {
        v := 0;
      }
    }

    method ReadU16(ghost q: nat) returns (v: int)
      requires Valid() && pos == Clamp(data, q)
      modifies this`pos
      ensures Valid() && pos == Clamp(data, q + 2)
      ensures v == U16(data, littleEndian, q)
    {
      if pos + 2 <= |data| {
        var lo := if littleEndian then data[pos] else data[pos + 1];
        var hi := if littleEndian then data[pos + 1] else data[pos];
        v := lo as int + 256 * hi as int;
        pos := pos + 2;
      } else {
        v := 0;
        pos := |data|;
      }
    }

    method ReadU32(ghost q: nat) returns (v: int)
      requires Valid() && pos == Clamp(data, q)
      modifies this`pos
      ensures Valid() && pos == Clamp(data, q + 4)
      ensures v == U32(data, littleEndian, q)
    {
      if pos + 4 <= |data| {
        var first := U16(data, littleEndian, pos);
        var second := U16(data, littleEndian, pos + 2);
        v := if littleEndian then first + 0x1_0000 * second else 0x1_0000 * first + second;
        pos := pos + 4;
      } else {
        v := 0;
        pos := |data|;
      }
    }

    /** skipRawData: a non-positive count does nothing. */
    method Skip(n: int, ghost q: nat)
      requires Valid() && pos == Clamp(data, q)
      modifies this`pos
      ensures Valid() && pos == Clamp(data, q + Max(n, 0))
    {
      if n > 0 {
        pos := Min(pos + n, |data|);
      }
    }
  }
}
