/** Readers for the blocks other than measures: the file header, system lines
  * with their staff records, instruments, and the text and title blocks.
  * Each reader is a method on the stream, specified by a function that says
  * which field sits at which offset from the block's start. */
module EncBlocks {
  import opened Bytes
  import opened Wrappers
  import opened EncTypes
  import opened EncMagic
  import opened Cursors

  // ---------------------------------------------------------------- header

  datatype HeaderRead = HeaderRead(header: Header, littleEndian: bool, end: nat)

  /** The fields of a recognised header at `p`, read in byte order `le`. */
  function HeaderFields(data: seq<byte>, le: bool, p: nat, magic: seq<int>): (h: Header)
    ensures h.magic == magic
  {
    Header(magic, U8(data, p + 4), U16(data, le, p + 0x28), U16(data, le, p + 0x2A),
           U16(data, le, p + 0x2C), I16(U16(data, le, p + 0x2E)), I16(U16(data, le, p + 0x30)),
           I8(U8(data, p + 0x32)), I8(U8(data, p + 0x33)), I16(U16(data, le, p + 0x34)))
  }

  /** The header at `p`: a known magic selects the byte order and the fields
    * follow at fixed offsets, 0xC2 bytes in all; any other magic leaves an
    * empty header and the byte order `le0` the stream already had. */
  function HeaderAt(data: seq<byte>, p: nat, le0: bool): (r: HeaderRead)
    requires p <= |data|
    ensures r.header.magic == [] <==> data[p..Min(p + 4, |data|)] !in {SCOW, SCO5}
    ensures r.header.magic != [] ==> r.littleEndian == (r.header.magic == SCOW) && r.end == Clamp(data, p + 0xC2)
    ensures r.header.magic == [] ==> r.littleEndian == le0 && r.header == EmptyHeader
  {
    var magic := data[p..Min(p + 4, |data|)];
    if magic == SCOW || magic == SCO5 then
      var le := magic == SCOW;
      HeaderRead(HeaderFields(data, le, p, magic), le, Clamp(data, p + 0xC2))
    else
      HeaderRead(EmptyHeader, le0, Clamp(data, p + 4))
  }

  /** EncHeader::read; the result says whether the magic was recognised. */
  method ReadHeader(c: Cursor) returns (h: Header, ok: bool)
    requires c.Valid()
    modifies c
    ensures c.Valid() && HeaderRead(h, c.littleEndian, c.pos) == HeaderAt(c.data, old(c.pos), old(c.littleEndian))
    ensures ok <==> h.magic != []
  {
    ghost var p := c.pos;
    var magic := ReadMagic(c);
    if magic == SCOW {
      c.SetByteOrder(true);
    } else if magic == SCO5 {
      c.SetByteOrder(false);
    } else {
      h := EmptyHeader;
      ok := false;
      return;
    }
    h := ReadHeaderFields(c, p, magic);
    ok := true;
  }

  /** The header's fields after its magic, up to the header's end. */
  method ReadHeaderFields(c: Cursor, ghost p: nat, magic: seq<int>) returns (h: Header)
    requires c.Valid() && c.pos == Clamp(c.data, p + 4)
    modifies c`pos
    ensures c.Valid() && c.pos == Clamp(c.data, p + 0xC2)
    ensures h == HeaderFields(c.data, c.littleEndian, p, magic)
  {
    var chuMagio, chuVersio, nekon1, fiksa1 := ReadVersion(c, p);
    var lineCount, pageCount, instrumentCount, staffPerSystem, measureCount := ReadCounts(c, p);
    h := Header(magic, chuMagio, chuVersio, nekon1, fiksa1, I16(lineCount), I16(pageCount),
                I8(instrumentCount), I8(staffPerSystem), I16(measureCount));
  }

  /** Offsets 4 to 0x2D of the header: file version and two fixed fields. */
  method ReadVersion(c: Cursor, ghost p: nat) returns (chuMagio: byte, chuVersio: int, nekon1: int, fiksa1: int)
    requires c.Valid() && c.pos == Clamp(c.data, p + 4)
    modifies c`pos
    ensures c.Valid() && c.pos == Clamp(c.data, p + 0x2E)
    ensures chuMagio == U8(c.data, p + 4) && chuVersio == U16(c.data, c.littleEndian, p + 0x28)
    ensures nekon1 == U16(c.data, c.littleEndian, p + 0x2A) && fiksa1 == U16(c.data, c.littleEndian, p + 0x2C)
  {
    chuMagio := c.ReadU8(p + 4);
    c.Skip(0x28 - 5, p + 5);
    chuVersio := c.ReadU16(p + 0x28);
    nekon1 := c.ReadU16(p + 0x2A);
    fiksa1 := c.ReadU16(p + 0x2C);
  }

  /** Offsets 0x2E to 0xC1 of the header: the counts, then padding. */
  method ReadCounts(c: Cursor, ghost p: nat) returns (lineCount: int, pageCount: int, instrumentCount: byte,
                                                     staffPerSystem: byte, measureCount: int)
    requires c.Valid() && c.pos == Clamp(c.data, p + 0x2E)
    modifies c`pos
    ensures c.Valid() && c.pos == Clamp(c.data, p + 0xC2)
    ensures lineCount == U16(c.data, c.littleEndian, p + 0x2E) && pageCount == U16(c.data, c.littleEndian, p + 0x30)
    ensures instrumentCount == U8(c.data, p + 0x32) && staffPerSystem == U8(c.data, p + 0x33)
    ensures measureCount == U16(c.data, c.littleEndian, p + 0x34)
  {
    lineCount := c.ReadU16(p + 0x2E);
    pageCount := c.ReadU16(p + 0x30);
    instrumentCount := c.ReadU8(p + 0x32);
    staffPerSystem := c.ReadU8(p + 0x33);
    measureCount := c.ReadU16(p + 0x34);
    c.Skip(0xC2 - 0x36, p + 0x36);
  }

  // ------------------------------------------------------------ staff data

  /** One 30-byte staff record. */
  function StaffDataAt(data: seq<byte>, q: nat): StaffData
  {
    StaffData(I8(U8(data, q + 14)), U8(data, q + 15), U8(data, q + 16), U8(data, q + 20), U8(data, q + 21))
  }

  method ReadStaffData(c: Cursor, ghost q: nat) returns (sd: StaffData)
    requires c.Valid() && c.pos == Clamp(c.data, q)
    modifies c`pos
    ensures c.Valid() && c.pos == Clamp(c.data, q + 30)
    ensures sd == StaffDataAt(c.data, q)
  {
    c.Skip(14, q);
    var clef := c.ReadU8(q + 14);
    var key := c.ReadU8(q + 15);
    var pageIdx := c.ReadU8(q + 16);
    c.Skip(3, q + 17);
    var staffType := c.ReadU8(q + 20);
    var instrStaffIdx := c.ReadU8(q + 21);
    c.Skip(8, q + 22);
    sd := StaffData(I8(clef), key, pageIdx, staffType, instrStaffIdx);
  }

  // ------------------------------------------------------------------ line

  function StaffCount(staffPerSystem: int): nat
  {
    if staffPerSystem > 0 then staffPerSystem else 0
  }

  /** A "LINE" block whose body starts at `q` (just after its size field):
    * the system's start measure and measure count, one staff record per staff
    * of a system, then a skip to the declared end. The skip length is
    * computed in unsigned 32-bit arithmetic and converted to int. */
  function LineAt(data: seq<byte>, le: bool, q: nat, varSize: int, staffPerSystem: int): (r: (Line, nat))
    ensures |r.0.staffData| == StaffCount(staffPerSystem)
    ensures forall k :: 0 <= k < |r.0.staffData| ==> r.0.staffData[k] == StaffDataAt(data, q + 13 + 30 * k)
    ensures r.1 >= q + 13
  {
    var staff := seq(StaffCount(staffPerSystem), k requires 0 <= k => StaffDataAt(data, q + 13 + 30 * k));
    var toSkip := Int32(varSize + 8 - 21 - 30 * staffPerSystem);
    (Line(varSize, U16(data, le, q + 10), U8(data, q + 12), staff),
     q + 13 + 30 * StaffCount(staffPerSystem) + Max(toSkip, 0))
  }

  /** When the declared size covers the staff records (and fits in a signed
    * 32-bit int), a line block ends exactly where its size says. */
  lemma LineEndsAtDeclaredSize(data: seq<byte>, le: bool, q: nat, varSize: int, staffPerSystem: int)
    requires 0 <= staffPerSystem && 13 + 30 * staffPerSystem <= varSize < 0x8000_0000
    ensures LineAt(data, le, q, varSize, staffPerSystem).1 == q + varSize
  {
    var x := varSize + 8 - 21 - 30 * staffPerSystem;
    assert 0 <= x < 0x8000_0000;
    assert x % 0x1_0000_0000 == x;
    assert Int32(x) == x;
  }

  method ReadLine(c: Cursor, varSize: int, staffPerSystem: int) returns (line: Line)
    requires c.Valid()
    modifies c`pos
    ensures c.Valid()
    ensures var (l, e) := LineAt(c.data, c.littleEndian, old(c.pos), varSize, staffPerSystem);
            line == l && c.pos == Clamp(c.data, e)
  {
    ghost var q := c.pos;
    c.Skip(10, q);
    var start := c.ReadU16(q + 10);
    var measureCount := c.ReadU8(q + 12);
    var staff: seq<StaffData> := [];
    var i := 0;
    while i < staffPerSystem
      invariant c.Valid() && 0 <= i && (staffPerSystem > 0 ==> i <= staffPerSystem)
      invariant staffPerSystem <= 0 ==> i == 0
      invariant |staff| == i && c.pos == Clamp(c.data, q + 13 + 30 * i)
      invariant forall k :: 0 <= k < i ==> staff[k] == StaffDataAt(c.data, q + 13 + 30 * k)
    {
      var sd := ReadStaffData(c, q + 13 + 30 * i);
      staff := staff + [sd];
      i := i + 1;
    }
    assert i == StaffCount(staffPerSystem);
    var toSkip := Int32(varSize + 8 - 21 - 30 * staffPerSystem);
    c.Skip(toSkip, q + 13 + 30 * i);
    line := Line(varSize, start, measureCount, staff);
    assert line == LineAt(c.data, c.littleEndian, q, varSize, staffPerSystem).0;
  }

  // ------------------------------------------------------------ instrument

  /** charSize(): names longer than the one-byte layout allows use two-byte characters. */
  function CharSizeOf(offset: int): CharSize
  {
    if offset > 250 then TwoBytes else OneByte
  }

  function Width(cs: CharSize): (w: nat)
    ensures w == 1 || w == 2
  {
    if cs == OneByte then 1 else 2
  }

  /** One character of `w` bytes at `q`: a byte, or a 16-bit value in the
    * stream's byte order. */
  function CharAt(data: seq<byte>, le: bool, q: nat, w: nat): (ch: int)
    requires w == 1 || w == 2
    ensures ch != 0 ==> q + w <= |data|
  {
    if w == 1 then U8(data, q) else U16(data, le, q)
  }

  /** Where character `k` of a run of `w`-byte characters starting at `q`
    * begins: `w * k` bytes further on. */
  function Offset(q: nat, w: nat, k: nat): nat
  {
    if w == 1 then q + k else q + 2 * k
  }

  lemma OffsetIs(q: nat, w: nat, k: nat)
    requires w == 1 || w == 2
    ensures Offset(q, w, k) == q + w * k
  {
  }

  /** A zero-terminated name of `w`-byte characters starting at `q`. */
  function NameAt(data: seq<byte>, le: bool, q: nat, w: nat): Text
    requires w == 1 || w == 2
    decreases |data| - q
  {
    var ch := CharAt(data, le, q, w);
    if ch == 0 then [] else [ch] + NameAt(data, le, q + w, w)
  }

  /** The name is the characters before the first zero one. */
  lemma {:induction false} NameIsTerminated(data: seq<byte>, le: bool, q: nat, w: nat)
    requires w == 1 || w == 2
    ensures var name := NameAt(data, le, q, w);
            CharAt(data, le, Offset(q, w, |name|), w) == 0 &&
            forall i :: 0 <= i < |name| ==> name[i] == CharAt(data, le, Offset(q, w, i), w) != 0
    decreases |data| - q
  {
    if CharAt(data, le, q, w) != 0 {
      NameIsTerminated(data, le, q + w, w);
      var name := NameAt(data, le, q, w);
      var rest := NameAt(data, le, q + w, w);
      assert name == [CharAt(data, le, q, w)] + rest;
      forall i | 1 <= i < |name|
        ensures name[i] == CharAt(data, le, Offset(q, w, i), w) != 0
      {
        assert name[i] == rest[i - 1];
      }
    }
  }

  /** One character of an instrument name. */
  method ReadChar(c: Cursor, ghost q: nat, cs: CharSize) returns (ch: int)
    requires c.Valid() && c.pos == Clamp(c.data, q)
    modifies c`pos
    ensures c.Valid() && c.pos == Clamp(c.data, q + Width(cs))
    ensures ch == CharAt(c.data, c.littleEndian, q, Width(cs))
  {
    if cs == OneByte {
      ch := c.ReadU8(q);
    } else {
      ch := c.ReadU16(q);
    }
  }

  /** An instrument ("TKnn") block: the low 16 bits of its size decide the
    * character width, the name follows, and the stream then skips to the
    * declared size, counting the tag and the size field (8 bytes). */
  function InstrumentAt(data: seq<byte>, le: bool, q: nat, varSize: int): (Instrument, nat)
    requires varSize >= 0
  {
    var offset := varSize % 0x1_0000;
    var w := Width(CharSizeOf(offset));
    var name := NameAt(data, le, q, w);
    var used := NameBytes(w, |name|);
    (Instrument(offset, name, 0), q + used + Max(offset - 8 - used, 0))
  }

  /** Bytes a name of `n` characters of width `w` takes, terminator included. */
  function NameBytes(w: nat, n: nat): nat
    requires w == 1 || w == 2
  {
    Offset(0, w, n + 1)
  }

  /** The instrument ends at its declared size, or just after the name's
    * terminator when the name is longer than that. */
  lemma InstrumentEnd(data: seq<byte>, le: bool, q: nat, varSize: int)
    requires varSize >= 0
    ensures var (ins, e) := InstrumentAt(data, le, q, varSize);
            e == q + Max(NameBytes(Width(CharSizeOf(ins.offset)), |ins.name|), ins.offset - 8)
  {
  }

  method ReadInstrument(c: Cursor, varSize: int) returns (ins: Instrument)
    requires c.Valid() && varSize >= 0
    modifies c`pos
    ensures c.Valid()
    ensures var (i, e) := InstrumentAt(c.data, c.littleEndian, old(c.pos), varSize);
            ins == i && c.pos == Clamp(c.data, e)
  {
    ghost var p := c.pos;
    var offset := varSize % 0x1_0000;
    var name, nread := ReadName(c, p, CharSizeOf(offset));
    c.Skip(offset - nread, p + NameBytes(Width(CharSizeOf(offset)), |name|));
    ins := Instrument(offset, name, 0);
  }

  /** The name loop of the instrument reader; `nread` counts the bytes of the
    * block consumed so far, starting with the 8 of its tag and size. */
  method ReadName(c: Cursor, ghost p: nat, cs: CharSize) returns (name: Text, nread: int)
    requires c.Valid() && c.pos == p
    modifies c`pos
    ensures c.Valid() && name == NameAt(c.data, c.littleEndian, p, Width(cs))
    ensures nread == 8 + NameBytes(Width(cs), |name|) && c.pos == Clamp(c.data, p + NameBytes(Width(cs), |name|))
  {
    var w := Width(cs);
    nread := 8;
    name := [];
    ghost var q: nat := p;
    var ready := false;
    while !ready
      invariant c.Valid() && c.pos == Clamp(c.data, q) && nread + p == 8 + q
      invariant !ready ==> q + w == p + NameBytes(w, |name|) && q <= |c.data|
      invariant !ready ==> name + NameAt(c.data, c.littleEndian, q, w) == NameAt(c.data, c.littleEndian, p, w)
      invariant ready ==> q == p + NameBytes(w, |name|)
      invariant ready ==> name == NameAt(c.data, c.littleEndian, p, w)
      decreases if ready then 0 else |c.data| - q + 1
    {
      var ch := ReadChar(c, q, cs);
      nread := nread + w;
      ghost var next := NameAt(c.data, c.littleEndian, q + w, w);
      if ch == 0 {
        ready := true;
      } else {
        assert name + [ch] + next == name + ([ch] + next);
        name := name + [ch];
      }
      q := q + w;
    }
  }

  // ----------------------------------------------------------------- texts

  /** Code unit `k` of a run of `w`-byte characters starting at `start`;
    * two-byte characters are stored low byte first, whatever the stream's
    * byte order. */
  function UnitAt(data: seq<byte>, start: nat, k: nat, w: nat): int
  {
    if w == 1 then U8(data, start + k) else U8(data, start + 2 * k) + 256 * U8(data, start + 2 * k + 1)
  }

  /** A terminator: 0, and for the texts of a TEXT block also 4. */
  predicate Stops(u: int, alsoFour: bool)
  {
    u == 0 || (alsoFour && u == 4)
  }

  /** The characters kept from the first `n` units of a fixed-size text
    * field: those before the first terminator. */
  function Units(data: seq<byte>, start: nat, n: nat, w: nat, alsoFour: bool): (t: Text)
    ensures |t| <= n
    decreases n
  {
    if n == 0 then []
    else
      var t := Units(data, start, n - 1, w, alsoFour);
      var u := UnitAt(data, start, n - 1, w);
      if |t| < n - 1 || Stops(u, alsoFour) then t else t + [u]
  }

  /** The text kept is the run of units before the first terminator, and the
    * field is cut short exactly when a terminator occurs in it. */
  lemma {:induction false} UnitsArePrefix(data: seq<byte>, start: nat, n: nat, w: nat, alsoFour: bool)
    ensures var t := Units(data, start, n, w, alsoFour);
            (forall i :: 0 <= i < |t| ==> t[i] == UnitAt(data, start, i, w) && !Stops(t[i], alsoFour)) &&
            (|t| < n ==> Stops(UnitAt(data, start, |t|, w), alsoFour))
  {
    if n > 0 {
      UnitsArePrefix(data, start, n - 1, w, alsoFour);
    }
  }

  /** The loop shared by readSingleText, readTextItem and the chord reader:
    * read `n` units, keep them until the first terminator. */
  method ReadUnits(c: Cursor, ghost start: nat, n: nat, w: nat, alsoFour: bool) returns (t: Text)
    requires c.Valid() && c.pos == Clamp(c.data, start) && (w == 1 || w == 2)
    modifies c`pos
    ensures c.Valid() && c.pos == Clamp(c.data, Offset(start, w, n))
    ensures t == Units(c.data, start, n, w, alsoFour)
  {
    t := [];
    var done := false;
    var j := 0;
    while j < n
      invariant c.Valid() && 0 <= j <= n && c.pos == Clamp(c.data, Offset(start, w, j))
      invariant t == Units(c.data, start, j, w, alsoFour)
      invariant done <==> |t| < j
    {
      var u := ReadUnit(c, start, j, w);
      if Stops(u, alsoFour) {
        done := true;
      }
      if !done {
        t := t + [u];
      }
      j := j + 1;
    }
  }

  /** Code unit `j` of a run of units: one byte, or a low and a high byte. */
  method ReadUnit(c: Cursor, ghost start: nat, j: nat, w: nat) returns (u: int)
    requires c.Valid() && c.pos == Clamp(c.data, Offset(start, w, j)) && (w == 1 || w == 2)
    modifies c`pos
    ensures c.Valid() && c.pos == Clamp(c.data, Offset(start, w, j + 1))
    ensures u == UnitAt(c.data, start, j, w)
  {
    if w == 1 {
      u := c.ReadU8(start + j);
    } else {
      var lower := c.ReadU8(start + 2 * j);
      var upper := c.ReadU8(start + 2 * j + 1);
      u := upper as int * 256 + lower as int;
    }
  }

  /** One text of a TEXT block at `q`: a 16-bit size, 14 more header bytes,
    * then size - 14 bytes (counted as unsigned 32-bit) holding the text. */
  function SingleTextAt(data: seq<byte>, le: bool, q: nat): (Text, nat)
  {
    var count := WrapSub32(U16(data, le, q), 14);
    (Units(data, q + 16, count, 1, true), q + 16 + count)
  }

  method ReadSingleText(c: Cursor, ghost q: nat) returns (text: Text)
    requires c.Valid() && c.pos == Clamp(c.data, q)
    modifies c`pos
    ensures c.Valid()
    ensures var (t, e) := SingleTextAt(c.data, c.littleEndian, q);
            text == t && c.pos == Clamp(c.data, e)
  {
    var size := c.ReadU16(q);
    c.Skip(14, q + 2);
    var count := WrapSub32(size, 14);
    text := ReadUnits(c, q + 16, count, 1, true);
  }

  /** The first `n` consecutive texts starting at `q`, and where they end. */
  function TextsFrom(data: seq<byte>, le: bool, q: nat, n: nat): (r: (seq<Text>, nat))
    ensures |r.0| == n && r.1 >= q
    decreases n
  {
    if n == 0 then ([], q)
    else
      var (ts, e) := TextsFrom(data, le, q, n - 1);
      var (t, e1) := SingleTextAt(data, le, e);
      (ts + [t], e1)
  }

  /** A TEXT block: the number of texts at offset 2, the texts from offset 8,
    * appended to those earlier TEXT blocks left. */
  function TextBlockAt(data: seq<byte>, le: bool, q: nat, varSize: int, prev: TextBlock): (r: (TextBlock, nat))
    ensures |r.0.texts| == |prev.texts| + U16(data, le, q + 2)
    ensures r.0.texts[..|prev.texts|] == prev.texts && r.1 >= q
  {
    var (ts, e) := TextsFrom(data, le, q + 8, U16(data, le, q + 2));
    (TextBlock(varSize, prev.texts + ts), e)
  }

  method ReadText(c: Cursor, varSize: int, prev: TextBlock) returns (tb: TextBlock)
    requires c.Valid()
    modifies c`pos
    ensures c.Valid()
    ensures var (b, e) := TextBlockAt(c.data, c.littleEndian, old(c.pos), varSize, prev);
            tb == b && c.pos == Clamp(c.data, e)
  {
    ghost var p := c.pos;
    c.Skip(2, p);
    var ntexts := c.ReadU16(p + 2);
    c.Skip(4, p + 4);
    var texts := ReadTexts(c, p + 8, ntexts);
    tb := TextBlock(varSize, prev.texts + texts);
  }

  /** The loop over the texts of a TEXT block. */
  method ReadTexts(c: Cursor, ghost q: nat, n: nat) returns (texts: seq<Text>)
    requires c.Valid() && c.pos == Clamp(c.data, q)
    modifies c`pos
    ensures c.Valid()
    ensures texts == TextsFrom(c.data, c.littleEndian, q, n).0
    ensures c.pos == Clamp(c.data, TextsFrom(c.data, c.littleEndian, q, n).1)
  {
    texts := [];
    var i := 0;
    while i < n
      invariant c.Valid() && 0 <= i <= n
      invariant texts == TextsFrom(c.data, c.littleEndian, q, i).0
      invariant c.pos == Clamp(c.data, TextsFrom(c.data, c.littleEndian, q, i).1)
    {
      var t := ReadSingleText(c, TextsFrom(c.data, c.littleEndian, q, i).1);
      texts := texts + [t];
      i := i + 1;
    }
  }

  // ----------------------------------------------------------------- title

  /** Each title item is a 30-byte header and a fixed-size character field. */
  function ItemSize(cs: CharSize): nat
  {
    if cs == OneByte then 30 + 66 else 30 + 2 * 513
  }

  /** Characters in an item's field: 66 one-byte or 513 two-byte ones. */
  function FieldChars(cs: CharSize): nat
  {
    if cs == OneByte then 66 else 513
  }

  /** The offset of item `k` of a run of items starting at `q`: `k` item
    * sizes further on. */
  function ItemStart(q: nat, cs: CharSize, k: nat): nat
  {
    if cs == OneByte then q + 96 * k else q + 1056 * k
  }

  lemma ItemStartIs(q: nat, cs: CharSize, k: nat)
    ensures ItemStart(q, cs, k) == q + k * ItemSize(cs)
  {
  }

  function TextItemAt(data: seq<byte>, q: nat, cs: CharSize): Text
  {
    Units(data, q + 30, FieldChars(cs), Width(cs), false)
  }

  /** `n` consecutive title items starting at `q`. */
  function ItemsAt(data: seq<byte>, q: nat, cs: CharSize, n: nat): (items: seq<Text>)
    ensures |items| == n
  {
    seq(n, k requires 0 <= k => TextItemAt(data, ItemStart(q, cs, k), cs))
  }

  lemma ItemsAtNext(data: seq<byte>, q: nat, cs: CharSize, i: nat)
    ensures ItemsAt(data, q, cs, i + 1) == ItemsAt(data, q, cs, i) + [TextItemAt(data, ItemStart(q, cs, i), cs)]
  {
    var longer := ItemsAt(data, q, cs, i + 1);
    var snoc := ItemsAt(data, q, cs, i) + [TextItemAt(data, ItemStart(q, cs, i), cs)];
    forall k | 0 <= k < i + 1
      ensures longer[k] == snoc[k]
    {
    }
    assert longer == snoc;
  }

  lemma NextItemStart(q: nat, cs: CharSize, i: nat)
    ensures ItemStart(q, cs, i) + ItemSize(cs) == ItemStart(q, cs, i + 1)
  {
  }

  /** Items `first` to `first + n - 1` of a title block whose items start at `b`. */
  function GroupAt(data: seq<byte>, b: nat, cs: CharSize, first: nat, n: nat): (items: seq<Text>)
    ensures |items| == n
  {
    ItemsAt(data, ItemStart(b, cs, first), cs, n)
  }

  /** A TITL block: the title, then 2 subtitles, 3 instructions, 4 authors,
    * 2 headers, 2 footers and 6 copyright lines, each list appended to what
    * earlier TITL blocks left; then a fixed skip to the block's end. */
  function TitleAt(data: seq<byte>, q: nat, cs: CharSize, varSize: int, prev: Title): (r: (Title, nat))
    ensures r.1 > q
  {
    var b := q + 2;
    (Title(varSize, TextItemAt(data, b, cs),
           prev.subtitle + GroupAt(data, b, cs, 1, 2),
           prev.instruction + GroupAt(data, b, cs, 3, 3),
           prev.author + GroupAt(data, b, cs, 6, 4),
           prev.header + GroupAt(data, b, cs, 10, 2),
           prev.footer + GroupAt(data, b, cs, 12, 2),
           prev.copyright + GroupAt(data, b, cs, 14, 6)),
     ItemStart(b, cs, 20) + TitlePad(cs))
  }

  /** The padding after the last item of a title block. */
  function TitlePad(cs: CharSize): nat
  {
    if cs == OneByte then 504 else 120
  }

  /** A TITL block spans 2426 bytes with one-byte and 21242 with two-byte characters. */
  lemma TitleSpan(data: seq<byte>, q: nat, cs: CharSize, varSize: int, prev: Title)
    ensures TitleAt(data, q, cs, varSize, prev).1 == q + (if cs == OneByte then 2426 else 21242)
  {
  }

  method ReadTextItem(c: Cursor, ghost q: nat, cs: CharSize) returns (item: Text)
    requires c.Valid() && c.pos == Clamp(c.data, q)
    modifies c`pos
    ensures c.Valid() && c.pos == Clamp(c.data, q + ItemSize(cs))
    ensures item == TextItemAt(c.data, q, cs)
  {
    c.Skip(30, q);
    item := ReadUnits(c, q + 30, FieldChars(cs), Width(cs), false);
  }

  /** One of the `for (i < n) push_back(readTextItem(...))` loops. */
  method ReadTextItems(c: Cursor, ghost q: nat, cs: CharSize, n: nat) returns (items: seq<Text>)
    requires c.Valid() && c.pos == Clamp(c.data, q)
    modifies c`pos
    ensures c.Valid() && c.pos == Clamp(c.data, ItemStart(q, cs, n))
    ensures items == ItemsAt(c.data, q, cs, n)
  {
    items := [];
    var i := 0;
    while i < n
      invariant c.Valid() && 0 <= i <= n && c.pos == Clamp(c.data, ItemStart(q, cs, i))
      invariant items == ItemsAt(c.data, q, cs, i)
    {
      items := ReadNextItem(c, q, cs, i, items);
      i := i + 1;
    }
  }

  /** Item `i` of a run of items starting at `q`, appended to the first `i`. */
  method ReadNextItem(c: Cursor, ghost q: nat, cs: CharSize, i: nat, items: seq<Text>) returns (more: seq<Text>)
    requires c.Valid() && c.pos == Clamp(c.data, ItemStart(q, cs, i))
    requires items == ItemsAt(c.data, q, cs, i)
    modifies c`pos
    ensures c.Valid() && c.pos == Clamp(c.data, ItemStart(q, cs, i + 1))
    ensures more == ItemsAt(c.data, q, cs, i + 1)
  {
    var item := ReadTextItem(c, ItemStart(q, cs, i), cs);
    NextItemStart(q, cs, i);
    ItemsAtNext(c.data, q, cs, i);
    more := items + [item];
  }

  method ReadGroup(c: Cursor, ghost b: nat, cs: CharSize, first: nat, n: nat) returns (items: seq<Text>)
    requires c.Valid() && c.pos == Clamp(c.data, ItemStart(b, cs, first))
    modifies c`pos
    ensures c.Valid() && c.pos == Clamp(c.data, ItemStart(b, cs, first + n))
    ensures items == GroupAt(c.data, b, cs, first, n)
  {
    items := ReadTextItems(c, ItemStart(b, cs, first), cs, n);
    GroupEnd(b, cs, first, n);
  }

  lemma GroupEnd(b: nat, cs: CharSize, first: nat, n: nat)
    ensures ItemStart(ItemStart(b, cs, first), cs, n) == ItemStart(b, cs, first + n)
  {
  }

  method ReadTitle(c: Cursor, varSize: int, cs: CharSize, prev: Title) returns (t: Title)
    requires c.Valid()
    modifies c`pos
    ensures c.Valid()
    ensures var (r, e) := TitleAt(c.data, old(c.pos), cs, varSize, prev);
            t == r && c.pos == Clamp(c.data, e)
  {
    ghost var b := c.pos + 2;
    c.Skip(2, c.pos);
    var title := ReadTextItem(c, b, cs);
    var subtitle, instruction, author := ReadFrontGroups(c, b, cs);
    var header, footer, copyright := ReadBackGroups(c, b, cs);
    c.Skip(TitlePad(cs), ItemStart(b, cs, 20));
    t := Title(varSize, title, prev.subtitle + subtitle, prev.instruction + instruction,
               prev.author + author, prev.header + header, prev.footer + footer,
               prev.copyright + copyright);
  }

  /** Items 1 to 9 of a title block: subtitles, instructions, authors. */
  method ReadFrontGroups(c: Cursor, ghost b: nat, cs: CharSize) returns (subtitle: seq<Text>, instruction: seq<Text>, author: seq<Text>)
    requires c.Valid() && c.pos == Clamp(c.data, ItemStart(b, cs, 1))
    modifies c`pos
    ensures c.Valid() && c.pos == Clamp(c.data, ItemStart(b, cs, 10))
    ensures subtitle == GroupAt(c.data, b, cs, 1, 2) && instruction == GroupAt(c.data, b, cs, 3, 3)
    ensures author == GroupAt(c.data, b, cs, 6, 4)
  {
    subtitle := ReadGroup(c, b, cs, 1, 2);
    instruction := ReadGroup(c, b, cs, 3, 3);
    author := ReadGroup(c, b, cs, 6, 4);
  }

  /** Items 10 to 19 of a title block: headers, footers, copyright lines. */
  method ReadBackGroups(c: Cursor, ghost b: nat, cs: CharSize) returns (header: seq<Text>, footer: seq<Text>, copyright: seq<Text>)
    requires c.Valid() && c.pos == Clamp(c.data, ItemStart(b, cs, 10))
    modifies c`pos
    ensures c.Valid() && c.pos == Clamp(c.data, ItemStart(b, cs, 20))
    ensures header == GroupAt(c.data, b, cs, 10, 2) && footer == GroupAt(c.data, b, cs, 12, 2)
    ensures copyright == GroupAt(c.data, b, cs, 14, 6)
  {
    header := ReadGroup(c, b, cs, 10, 2);
    footer := ReadGroup(c, b, cs, 12, 2);
    copyright := ReadGroup(c, b, cs, 14, 6);
  }
}
