/** EncFile::read: the header, then blocks until the end of the data, each
  * found by scanning for the next known tag and followed by a 32-bit size;
  * then the post-decode passes. */
module EncRead {
  import opened Bytes
  import opened Wrappers
  import opened EncTypes
  import opened EncMagic
  import opened Cursors
  import opened EncBlocks
  import opened EncMeasures
  import opened EncPost

  /** What the blocks decoded so far leave: the lists, the last TEXT and TITL
    * contents, and the character size the last instrument block set. */
  datatype Decoded = Decoded(instruments: seq<Instrument>, lines: seq<Line>, measures: seq<Measure>,
                             text: TextBlock, title: Title, charSize: CharSize)

  const NoBlocks := Decoded([], [], [], EmptyText, EmptyTitle, OneByte)

  /** One pass of the block loop from position `p`: the next known tag, the
    * block size after it, and the reader the tag selects; an unrecognised tag
    * (only the empty one at the end of the data) skips the declared size. */
  function BlockAt(data: seq<byte>, le: bool, p: nat, staffPerSystem: int, kindOf: byte -> OrnamentKind, d: Decoded)
    : (r: Result<(Decoded, nat), DecodeError>)
    requires p < |data|
    ensures r.Ok? ==> p < r.value.1 <= |data|
  {
    var (magic, q) := NextMagic(data, p);
    BlockBodyAt(data, le, magic, q, staffPerSystem, kindOf, d)
  }

  /** The block that tag `magic`, ending at `q`, opens: the 32-bit size, then
    * what the reader for that tag decodes, and where it stops. */
  function BlockBodyAt(data: seq<byte>, le: bool, magic: seq<int>, q: nat, staffPerSystem: int,
                       kindOf: byte -> OrnamentKind, d: Decoded)
    : (r: Result<(Decoded, nat), DecodeError>)
    ensures r.Ok? ==> Min(q + 4, |data|) <= r.value.1 <= |data|
  {
    var varSize := U32(data, le, q);
    var b := Clamp(data, q + 4);
    if magic == LINE then
      var (line, e) := LineAt(data, le, b, varSize, staffPerSystem);
      Ok((d.(lines := d.lines + [line]), Clamp(data, e)))
    else if magic == MEAS then
      match MeasureAt(data, le, b, varSize, kindOf)
      case Err(err) => Err(err)
      case Ok((m, e)) => Ok((d.(measures := d.measures + [m]), Clamp(data, e)))
    else if magic == TEXT then
      var (t, e) := TextBlockAt(data, le, b, varSize, d.text);
      Ok((d.(text := t), Clamp(data, e)))
    else if magic == TITL then
      var (t, e) := TitleAt(data, b, d.charSize, varSize, d.title);
      Ok((d.(title := t), Clamp(data, e)))
    else if IsInstrumentMagic(magic) then
      var (ins, e) := InstrumentAt(data, le, b, varSize);
      InstrumentEnd(data, le, b, varSize);
      Ok((d.(instruments := d.instruments + [ins], charSize := CharSizeOf(ins.offset)), Clamp(data, e)))
    else
      Ok((d, Clamp(data, b + Max(Int32(varSize), 0))))
  }

  /** The block loop from position `p` to the end of the data. */
  function Blocks(data: seq<byte>, le: bool, staffPerSystem: int, kindOf: byte -> OrnamentKind, p: nat, d: Decoded)
    : Result<Decoded, DecodeError>
    requires p <= |data|
    decreases |data| - p
  {
    if p == |data| then Ok(d)
    else match BlockAt(data, le, p, staffPerSystem, kindOf, d)
      case Err(err) => Err(err)
      case Ok((d2, p2)) => Blocks(data, le, staffPerSystem, kindOf, p2, d2)
  }

  /** The whole decode: header, blocks, then made-up instruments, staff
    * counts from the first system line and the spanner ends. */
  function DecodeFile(data: seq<byte>, acc: Accessors): Result<EncFile, DecodeError>
  {
    var hr := HeaderAt(data, 0, false);
    var h := hr.header;
    match Blocks(data, hr.littleEndian, h.staffPerSystem, acc.ornamentKind, hr.end, NoBlocks)
    case Err(err) => Err(err)
    case Ok(d) =>
      var instruments := FixedInstruments(d.instruments, h.instrumentCount);
      if |d.lines| == 0 then Err(NoSystemLine)
      else
        match SpannerEnds(d.measures)
        case Err(err) => Err(err)
        case Ok(ms) =>
          Ok(EncFile(h, CountedInstruments(instruments, d.lines[0].staffData, acc.instrumentIndex),
                     d.lines, ms, d.text, d.title))
  }

  method ReadBlock(c: Cursor, staffPerSystem: int, kindOf: byte -> OrnamentKind, d: Decoded)
    returns (r: Result<Decoded, DecodeError>)
    requires c.Valid() && c.pos < |c.data|
    modifies c`pos
    ensures c.Valid()
    ensures match BlockAt(c.data, c.littleEndian, old(c.pos), staffPerSystem, kindOf, d)
            case Ok((d2, p2)) => r == Ok(d2) && c.pos == p2
            case Err(err) => r == Err(err)
  {
    var magic := FindNextKnownMagic(c);
    r := ReadBlockBody(c, magic, staffPerSystem, kindOf, d);
  }

  /** The size after a tag and the reader the tag selects. */
  method ReadBlockBody(c: Cursor, magic: seq<int>, staffPerSystem: int, kindOf: byte -> OrnamentKind, d: Decoded)
    returns (r: Result<Decoded, DecodeError>)
    requires c.Valid()
    modifies c`pos
    ensures c.Valid()
    ensures match BlockBodyAt(c.data, c.littleEndian, magic, old(c.pos), staffPerSystem, kindOf, d)
            case Ok((d2, p2)) => r == Ok(d2) && c.pos == p2
            case Err(err) => r == Err(err)
  {
    var varSize := c.ReadU32(c.pos);
    if magic == LINE {
      var line := ReadLine(c, varSize, staffPerSystem);
      r := Ok(d.(lines := d.lines + [line]));
    } else if magic == MEAS {
      var m := ReadMeasure(c, varSize, kindOf);
      r := if m.Ok? then Ok(d.(measures := d.measures + [m.value])) else Err(m.error);
    } else if magic == TEXT {
      var t := ReadText(c, varSize, d.text);
      r := Ok(d.(text := t));
    } else if magic == TITL {
      var t := ReadTitle(c, varSize, d.charSize, d.title);
      r := Ok(d.(title := t));
    } else if IsInstrumentMagic(magic) {
      var ins := ReadInstrument(c, varSize);
      r := Ok(d.(instruments := d.instruments + [ins], charSize := CharSizeOf(ins.offset)));
    } else {
      c.Skip(Int32(varSize), c.pos);
      r := Ok(d);
    }
  }

  /** EncFile::read over the whole file. */
  method ReadFile(data: seq<byte>, acc: Accessors) returns (r: Result<EncFile, DecodeError>)
    ensures r == DecodeFile(data, acc)
  {
    var c := new Cursor(data);
    var h, _ := ReadHeader(c);
    ghost var hr := HeaderAt(data, 0, false);
    assert h == hr.header;
    ghost var p0 := c.pos;
    var d := NoBlocks;
    while !c.AtEnd()
      invariant c.Valid() && c.data == data && c.littleEndian == hr.littleEndian
      invariant Blocks(data, hr.littleEndian, h.staffPerSystem, acc.ornamentKind, p0, NoBlocks) ==
                Blocks(data, hr.littleEndian, h.staffPerSystem, acc.ornamentKind, c.pos, d)
      decreases |data| - c.pos
    {
      var b := ReadBlock(c, h.staffPerSystem, acc.ornamentKind, d);
      if b.Err? {
        return Err(b.error);
      }
      d := b.value;
    }
    var instruments := FixupInstruments(d.instruments, h.instrumentCount);
    if |d.lines| == 0 {
      return Err(NoSystemLine);
    }
    instruments := CountStaves(instruments, d.lines[0].staffData, acc.instrumentIndex);
    var measures := AddSpannerEnds(d.measures);
    if measures.Err? {
      return Err(measures.error);
    }
    r := Ok(EncFile(h, instruments, d.lines, measures.value, d.text, d.title));
  }

  /** A decoded file has a system line, and each instrument's staff count is
    * the number of staves of the first system that belong to it. */
  lemma DecodedStaffCounts(data: seq<byte>, acc: Accessors, i: nat)
    requires DecodeFile(data, acc).Ok?
    requires i < |DecodeFile(data, acc).value.instruments|
    ensures var f := DecodeFile(data, acc).value;
            |f.lines| > 0 && f.instruments[i].nstaves == StavesOf(f.lines[0].staffData, acc.instrumentIndex, i)
  {
  }

  /** In a decoded file every slur or wedge start is closed by its stop in
    * the measure it points to. */
  lemma EverySpannerClosed(data: seq<byte>, acc: Accessors, i: nat, k: nat)
    requires DecodeFile(data, acc).Ok?
    requires var f := DecodeFile(data, acc).value;
             i < |f.measures| && k < |f.measures[i].elems| && IsSpannerStart(f.measures[i].elems[k])
    ensures var f := DecodeFile(data, acc).value;
            var j := i + f.measures[i].elems[k].body.alMezuro;
            j < |f.measures| && StopOf(f.measures[i].elems[k]) in f.measures[j].elems
  {
    var hr := HeaderAt(data, 0, false);
    var d := Blocks(data, hr.littleEndian, hr.header.staffPerSystem, acc.ornamentKind, hr.end, NoBlocks).value;
    assert DecodeFile(data, acc).value.measures == SpannerEnds(d.measures).value;
    SpannerEndsCloseStarts(d.measures, i, k);
  }
}
