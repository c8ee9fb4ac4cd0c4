/** The "MEAS" block: fixed measure attributes, then a list of elements, each
  * opened by a 16-bit tick and a type/voice byte, ending at a 0xFFFF tick. */
module EncMeasures {
  import opened Bytes
  import opened Wrappers
  import opened EncTypes
  import opened EncBlocks
  import opened Cursors

  // ------------------------------------------------------------- elements

  /** Bytes an element's reader consumes, counted from its tick, before the
    * final skip to the element's declared size. */
  function FixedSize(t: nibble, chordTipo: byte): nat
  {
    if t == ELEM_NOTE then 27
    else if t == ELEM_REST then 15
    else if t == ELEM_ORNAMENT then 33
    else if t == ELEM_CHORD then (if chordTipo % 2 == 1 then 50 else 14)
    else if t == ELEM_TIE then 11
    else if t == ELEM_KEYCHANGE then 6
    else 5
  }

  function TypeAt(data: seq<byte>, q: nat): nibble
  {
    U8(data, q + 2) / 16
  }

  function NoteAt(data: seq<byte>, le: bool, q: nat): Body
  {
    NoteBody(U8(data, q + 5), U8(data, q + 6), U8(data, q + 7), I8(U8(data, q + 12)), U8(data, q + 13),
             U8(data, q + 14), U8(data, q + 15), U16(data, le, q + 16), U8(data, q + 19), U8(data, q + 20),
             U8(data, q + 21), U8(data, q + 24), U8(data, q + 26))
  }

  function RestAt(data: seq<byte>, q: nat): Body
  {
    RestBody(U8(data, q + 5), U8(data, q + 13), U8(data, q + 14))
  }

  function OrnamentAt(data: seq<byte>, q: nat, kindOf: byte -> OrnamentKind): Body
  {
    OrnamentBody(kindOf(U8(data, q + 5)), U8(data, q + 18), U8(data, q + 20), U8(data, q + 26) % 4,
                 U8(data, q + 28), U8(data, q + 30), U8(data, q + 32))
  }

  /** The number of two-byte text units of a chord symbol. */
  const CHORD_UNITS: nat := 18

  /** A chord symbol; an odd type byte announces 18 two-byte text units. */
  function ChordAt(data: seq<byte>, q: nat): Body
  {
    var tipo := U8(data, q + 6);
    ChordBody(U8(data, q + 5), tipo, U8(data, q + 12), U8(data, q + 13),
              if tipo % 2 == 1 then Units(data, q + 14, CHORD_UNITS, 2, false) else [])
  }

  /** The fields an element's reader fills in, at their offsets from the tick. */
  function BodyAt(data: seq<byte>, le: bool, q: nat, kindOf: byte -> OrnamentKind): Body
  {
    var t := TypeAt(data, q);
    if t == ELEM_NONE then NoneBody
    else if t == ELEM_CLEF then ClefBody
    else if t == ELEM_KEYCHANGE then KeyChangeBody(U8(data, q + 5))
    else if t == ELEM_TIE then TieBody
    else if t == ELEM_BEAM then BeamBody
    else if t == ELEM_ORNAMENT then OrnamentAt(data, q, kindOf)
    else if t == ELEM_LYRIC then LyricBody
    else if t == ELEM_CHORD then ChordAt(data, q)
    else if t == ELEM_REST then RestAt(data, q)
    else if t == ELEM_NOTE then NoteAt(data, le, q)
    else UnknownBody
  }

  /** The horizontal position: read at offset 10 by ties, ornaments, chords,
    * rests and notes; forced to 0 for key changes and to 255 for beams. */
  function XOffsetAt(data: seq<byte>, q: nat): byte
  {
    var t := TypeAt(data, q);
    if t in {ELEM_TIE, ELEM_ORNAMENT, ELEM_CHORD, ELEM_REST, ELEM_NOTE} then U8(data, q + 10)
    else if t == ELEM_BEAM then 255
    else 0
  }

  /** The element whose tick is at offset `q`. */
  function ElemAt(data: seq<byte>, le: bool, q: nat, kindOf: byte -> OrnamentKind): Elem
  {
    Elem(U16(data, le, q), TypeAt(data, q), U8(data, q + 2) % 16, U8(data, q + 3), U8(data, q + 4) % 64,
         XOffsetAt(data, q), BodyAt(data, le, q, kindOf))
  }

  /** Where the element at `q` ends: after its declared size, or after the
    * fields its reader consumes if the declared size is smaller. */
  function ElemEnd(data: seq<byte>, q: nat): (e: nat)
    ensures e >= q + 5
  {
    q + Max(FixedSize(TypeAt(data, q), U8(data, q + 6)), U8(data, q + 3))
  }

  /** An element whose declared size covers its fields spans exactly that size. */
  lemma ElemSpansDeclaredSize(data: seq<byte>, q: nat)
    requires U8(data, q + 3) >= FixedSize(TypeAt(data, q), U8(data, q + 6))
    ensures ElemEnd(data, q) == q + U8(data, q + 3)
  {
  }

  /** The note fields from offset 5 to 15. */
  method ReadNoteHead(c: Cursor, ghost q: nat)
    returns (faceValue: byte, grace1: byte, grace2: byte, xoffset: byte, position: byte, tuplet: byte, dotControl: byte, semiTonePitch: byte)
    requires c.Valid() && c.pos == Clamp(c.data, q + 5)
    modifies c`pos
    ensures c.Valid() && c.pos == Clamp(c.data, q + 16)
    ensures faceValue == U8(c.data, q + 5) && grace1 == U8(c.data, q + 6) && grace2 == U8(c.data, q + 7)
    ensures xoffset == U8(c.data, q + 10) && position == U8(c.data, q + 12) && tuplet == U8(c.data, q + 13)
    ensures dotControl == U8(c.data, q + 14) && semiTonePitch == U8(c.data, q + 15)
  {
    faceValue := c.ReadU8(q + 5);
    grace1 := c.ReadU8(q + 6);
    grace2 := c.ReadU8(q + 7);
    c.Skip(2, q + 8);
    xoffset := c.ReadU8(q + 10);
    c.Skip(1, q + 11);
    position := c.ReadU8(q + 12);
    tuplet := c.ReadU8(q + 13);
    dotControl := c.ReadU8(q + 14);
    semiTonePitch := c.ReadU8(q + 15);
  }

  /** The note fields from offset 16 to 26. */
  method ReadNoteTail(c: Cursor, ghost q: nat)
    returns (playbackDurTicks: int, velocity: byte, options: byte, alterationGlyph: byte, articulationUp: byte, articulationDown: byte)
    requires c.Valid() && c.pos == Clamp(c.data, q + 16)
    modifies c`pos
    ensures c.Valid() && c.pos == Clamp(c.data, q + 27)
    ensures playbackDurTicks == U16(c.data, c.littleEndian, q + 16) && velocity == U8(c.data, q + 19)
    ensures options == U8(c.data, q + 20) && alterationGlyph == U8(c.data, q + 21)
    ensures articulationUp == U8(c.data, q + 24) && articulationDown == U8(c.data, q + 26)
  {
    playbackDurTicks := c.ReadU16(q + 16);
    c.Skip(1, q + 18);
    velocity := c.ReadU8(q + 19);
    options := c.ReadU8(q + 20);
    alterationGlyph := c.ReadU8(q + 21);
    c.Skip(2, q + 22);
    articulationUp := c.ReadU8(q + 24);
    c.Skip(1, q + 25);
    articulationDown := c.ReadU8(q + 26);
  }

  method ReadNote(c: Cursor, ghost q: nat, size: byte) returns (body: Body, xoffset: byte)
    requires c.Valid() && c.pos == Clamp(c.data, q + 5) && size == U8(c.data, q + 3)
    modifies c`pos
    ensures c.Valid() && c.pos == Clamp(c.data, q + Max(27, size))
    ensures body == NoteAt(c.data, c.littleEndian, q) && xoffset == U8(c.data, q + 10)
  {
    var faceValue, grace1, grace2, xoff, position, tuplet, dotControl, semiTonePitch := ReadNoteHead(c, q);
    var playbackDurTicks, velocity, options, alterationGlyph, articulationUp, articulationDown := ReadNoteTail(c, q);
    c.Skip(size - 27, q + 27);
    xoffset := xoff;
    body := NoteBody(faceValue, grace1, grace2, I8(position), tuplet, dotControl, semiTonePitch,
                     playbackDurTicks, velocity, options, alterationGlyph, articulationUp, articulationDown);
  }

  method ReadRest(c: Cursor, ghost q: nat, size: byte) returns (body: Body, xoffset: byte)
    requires c.Valid() && c.pos == Clamp(c.data, q + 5) && size == U8(c.data, q + 3)
    modifies c`pos
    ensures c.Valid() && c.pos == Clamp(c.data, q + Max(15, size))
    ensures body == RestAt(c.data, q) && xoffset == U8(c.data, q + 10)
  {
    var faceValue := c.ReadU8(q + 5);
    c.Skip(4, q + 6);
    xoffset := c.ReadU8(q + 10);
    c.Skip(2, q + 11);
    var tuplet := c.ReadU8(q + 13);
    var dotControl := c.ReadU8(q + 14);
    c.Skip(size - 10 - 5, q + 15);
    body := RestBody(faceValue, tuplet, dotControl);
  }

  /** The ornament fields from offset 5 to 20. */
  method ReadOrnamentHead(c: Cursor, ghost q: nat) returns (tipo: byte, xoffset: byte, alMezuro: byte, xoffset2: byte)
    requires c.Valid() && c.pos == Clamp(c.data, q + 5)
    modifies c`pos
    ensures c.Valid() && c.pos == Clamp(c.data, q + 21)
    ensures tipo == U8(c.data, q + 5) && xoffset == U8(c.data, q + 10)
    ensures alMezuro == U8(c.data, q + 18) && xoffset2 == U8(c.data, q + 20)
  {
    tipo := c.ReadU8(q + 5);
    c.Skip(4, q + 6);
    xoffset := c.ReadU8(q + 10);
    c.Skip(7, q + 11);
    alMezuro := c.ReadU8(q + 18);
    c.Skip(1, q + 19);
    xoffset2 := c.ReadU8(q + 20);
  }

  /** The ornament fields from offset 21 to 32. */
  method ReadOrnamentTail(c: Cursor, ghost q: nat) returns (speguleco: byte, noto: byte, tempo: byte, tind: byte)
    requires c.Valid() && c.pos == Clamp(c.data, q + 21)
    modifies c`pos
    ensures c.Valid() && c.pos == Clamp(c.data, q + 33)
    ensures speguleco == U8(c.data, q + 26) && noto == U8(c.data, q + 28)
    ensures tempo == U8(c.data, q + 30) && tind == U8(c.data, q + 32)
  {
    c.Skip(5, q + 21);
    speguleco := c.ReadU8(q + 26);
    c.Skip(1, q + 27);
    noto := c.ReadU8(q + 28);
    c.Skip(1, q + 29);
    tempo := c.ReadU8(q + 30);
    c.Skip(1, q + 31);
    tind := c.ReadU8(q + 32);
  }

  method ReadOrnament(c: Cursor, ghost q: nat, size: byte, kindOf: byte -> OrnamentKind) returns (body: Body, xoffset: byte)
    requires c.Valid() && c.pos == Clamp(c.data, q + 5) && size == U8(c.data, q + 3)
    modifies c`pos
    ensures c.Valid() && c.pos == Clamp(c.data, q + Max(33, size))
    ensures body == OrnamentAt(c.data, q, kindOf) && xoffset == U8(c.data, q + 10)
  {
    var tipo, xoff, alMezuro, xoffset2 := ReadOrnamentHead(c, q);
    var speguleco, noto, tempo, tind := ReadOrnamentTail(c, q);
    c.Skip(size - 5 - 28, q + 33);
    xoffset := xoff;
    body := OrnamentBody(kindOf(tipo), alMezuro, xoffset2, speguleco % 4, noto, tempo, tind);
  }

  method ReadChord(c: Cursor, ghost q: nat, size: byte) returns (body: Body, xoffset: byte)
    requires c.Valid() && c.pos == Clamp(c.data, q + 5) && size == U8(c.data, q + 3)
    modifies c`pos
    ensures c.Valid() && c.pos == Clamp(c.data, q + Max(if U8(c.data, q + 6) % 2 == 1 then 50 else 14, size))
    ensures body == ChordAt(c.data, q) && xoffset == U8(c.data, q + 10)
  {
    var toniko, tipo, xoff, radiko, baso := ReadChordHead(c, q);
    xoffset := xoff;
    var teksto: Text := [];
    if tipo % 2 == 1 {
      teksto := ReadUnits(c, q + 14, CHORD_UNITS, 2, false);
      c.Skip(size - 5 - 9 - 2 * CHORD_UNITS, q + 50);
    } else {
      c.Skip(size - 5 - 9, q + 14);
    }
    body := ChordBody(toniko, tipo, radiko, baso, teksto);
  }

  /** Offsets 5 to 13 of a chord symbol. */
  method ReadChordHead(c: Cursor, ghost q: nat) returns (toniko: byte, tipo: byte, xoffset: byte, radiko: byte, baso: byte)
    requires c.Valid() && c.pos == Clamp(c.data, q + 5)
    modifies c`pos
    ensures c.Valid() && c.pos == Clamp(c.data, q + 14)
    ensures toniko == U8(c.data, q + 5) && tipo == U8(c.data, q + 6) && xoffset == U8(c.data, q + 10)
    ensures radiko == U8(c.data, q + 12) && baso == U8(c.data, q + 13)
  {
    toniko := c.ReadU8(q + 5);
    tipo := c.ReadU8(q + 6);
    c.Skip(3, q + 7);
    xoffset := c.ReadU8(q + 10);
    c.Skip(1, q + 11);
    radiko := c.ReadU8(q + 12);
    baso := c.ReadU8(q + 13);
  }

  /** The readers that take one byte or none beyond the common fields, then skip. */
  method ReadPlain(c: Cursor, ghost q: nat, t: nibble, size: byte) returns (body: Body, xoffset: byte)
    requires c.Valid() && c.pos == Clamp(c.data, q + 5) && size == U8(c.data, q + 3) && TypeAt(c.data, q) == t
    requires SupportedElemType(t) && t !in {ELEM_NOTE, ELEM_REST, ELEM_ORNAMENT, ELEM_CHORD}
    modifies c`pos
    ensures c.Valid() && c.pos == Clamp(c.data, ElemEnd(c.data, q))
    ensures body == BodyAt(c.data, c.littleEndian, q, x => OtherOrnament) && xoffset == XOffsetAt(c.data, q)
  {
    xoffset := 0;
    if t == ELEM_KEYCHANGE {
      var tipo := c.ReadU8(q + 5);
      c.Skip(size - 5 - 1, q + 6);
      body := KeyChangeBody(tipo);
    } else if t == ELEM_TIE {
      c.Skip(5, q + 5);
      xoffset := c.ReadU8(q + 10);
      c.Skip(size - 5 - 6, q + 11);
      body := TieBody;
    } else {
      c.Skip(size - 5, q + 5);
      if t == ELEM_BEAM {
        xoffset := 255;
        body := BeamBody;
      } else {
        body := if t == ELEM_NONE then NoneBody else if t == ELEM_CLEF then ClefBody
                else if t == ELEM_LYRIC then LyricBody else UnknownBody;
      }
    }
  }

  /** The element reader chosen by the type nibble, after the tick and the
    * type/voice byte: the element's size and staff, then its own fields. */
  method ReadElem(c: Cursor, ghost q: nat, tick: int, typeVoice: byte, kindOf: byte -> OrnamentKind) returns (e: Elem)
    requires c.Valid() && c.pos == Clamp(c.data, q + 3)
    requires tick == U16(c.data, c.littleEndian, q) && typeVoice == U8(c.data, q + 2)
    requires SupportedElemType(typeVoice / 16)
    modifies c`pos
    ensures c.Valid() && c.pos == Clamp(c.data, ElemEnd(c.data, q))
    ensures e == ElemAt(c.data, c.littleEndian, q, kindOf)
  {
    var t: nibble := typeVoice / 16;
    var voice: nibble := typeVoice % 16;
    var size := c.ReadU8(q + 3);
    var staffIdx := c.ReadU8(q + 4);
    var body: Body;
    var xoffset: byte;
    if t == ELEM_NOTE {
      body, xoffset := ReadNote(c, q, size);
    } else if t == ELEM_REST {
      body, xoffset := ReadRest(c, q, size);
    } else if t == ELEM_ORNAMENT {
      body, xoffset := ReadOrnament(c, q, size, kindOf);
    } else if t == ELEM_CHORD {
      body, xoffset := ReadChord(c, q, size);
    } else {
      body, xoffset := ReadPlain(c, q, t, size);
    }
    e := Elem(tick, t, voice, size, staffIdx % 64, xoffset, body);
  }

  // --------------------------------------------------------- element list

  /** One pass of the element loop, from the offset `p` of the next tick. */
  datatype Step = Exit(end: nat) | Fatal(elemType: nibble) | Continue(elem: Elem, next: nat)

  function StepAt(data: seq<byte>, le: bool, p: nat, kindOf: byte -> OrnamentKind): (s: Step)
    ensures s.Continue? ==> s.next >= p + 5
  {
    if U16(data, le, p) == 0xFFFF then Exit(p + 2)
    else if U8(data, p + 2) == 0xFF then Exit(p + 4)  // the end marker one byte late
    else if !SupportedElemType(TypeAt(data, p)) then Fatal(TypeAt(data, p))
    else Continue(ElemAt(data, le, p, kindOf), ElemEnd(data, p))
  }

  /** The elements kept (all but type NONE), the sum of all declared sizes,
    * and where the list ended; or the unsupported element type met. */
  datatype Elements = Elements(elems: seq<Elem>, elemSize: int, end: nat) | Unsupported(elemType: nibble)

  function Kept(e: Elem): seq<Elem>
  {
    if e.elemType != ELEM_NONE then [e] else []
  }

  function Prefixed(es: seq<Elem>, size: int, r: Elements): Elements
  {
    match r
    case Unsupported(t) => Unsupported(t)
    case Elements(rest, s, end) => Elements(es + rest, size + s, end)
  }

  /** The element loop as written, run for at most `fuel` passes: None when
    * it has not ended by then. */
  function SourceRun(data: seq<byte>, le: bool, kindOf: byte -> OrnamentKind, p: nat, fuel: nat): Option<Elements>
    decreases fuel
  {
    if fuel == 0 then None
    else match StepAt(data, le, p, kindOf)
      case Exit(e) => Some(Elements([], 0, e))
      case Fatal(t) => Some(Unsupported(t))
      case Continue(e, next) =>
        match SourceRun(data, le, kindOf, next, fuel - 1)
        case None => None
        case Some(r) => Some(Prefixed(Kept(e), e.size, r))
  }

  /** Once the stream cannot supply a whole tick, every later read yields 0:
    * tick 0 and type NONE, size 0, so each pass reads an empty element and
    * the loop as written never ends. */
  lemma {:induction false} TruncatedMeasureNeverEnds(data: seq<byte>, le: bool, kindOf: byte -> OrnamentKind, p: nat, fuel: nat)
    requires p + 2 > |data|
    ensures SourceRun(data, le, kindOf, p, fuel) == None
    decreases fuel
  {
    if fuel > 0 {
      assert StepAt(data, le, p, kindOf).Continue?;
      TruncatedMeasureNeverEnds(data, le, kindOf, StepAt(data, le, p, kindOf).next, fuel - 1);
    }
  }

  /** The element list with the loop also ending when the data is exhausted
    * before the end marker. */
  function Stream(data: seq<byte>, le: bool, kindOf: byte -> OrnamentKind, p: nat): (r: Elements)
    ensures r.Elements? ==> forall e :: e in r.elems ==> e.elemType != ELEM_NONE && SupportedElemType(e.elemType)
    ensures r.Elements? ==> r.end >= p + 2
    decreases |data| - p
  {
    if p + 2 > |data| then Elements([], 0, p + 2)
    else match StepAt(data, le, p, kindOf)
      case Exit(e) => Elements([], 0, e)
      case Fatal(t) => Unsupported(t)
      case Continue(e, next) => Prefixed(Kept(e), e.size, Stream(data, le, kindOf, next))
  }

  /** Wherever the loop as written ends, the corrected loop ends the same way. */
  lemma {:induction false} StreamAgreesWithSource(data: seq<byte>, le: bool, kindOf: byte -> OrnamentKind, p: nat, fuel: nat)
    requires SourceRun(data, le, kindOf, p, fuel).Some?
    ensures Stream(data, le, kindOf, p) == SourceRun(data, le, kindOf, p, fuel).value
    decreases fuel
  {
    if p + 2 > |data| {
      TruncatedMeasureNeverEnds(data, le, kindOf, p, fuel);
    } else if StepAt(data, le, p, kindOf).Continue? {
      StreamAgreesWithSource(data, le, kindOf, StepAt(data, le, p, kindOf).next, fuel - 1);
    }
  }

  // --------------------------------------------------------------- measure

  /** The fixed measure attributes, with no elements yet. */
  function MeasureHeadAt(data: seq<byte>, le: bool, q: nat, varsize: int): Measure
  {
    Measure(varsize, U16(data, le, q), U8(data, q + 2), U16(data, le, q + 4), U16(data, le, q + 6),
            U8(data, q + 8), U8(data, q + 9), U8(data, q + 12), U8(data, q + 13), U8(data, q + 14),
            U8(data, q + 15), U32(data, le, q + 25), [])
  }

  /** A MEAS block whose body starts at `q`: the fixed attributes at offsets
    * 0 to 28, the elements from offset 54, then a skip to the declared size
    * (the size as a signed 32-bit int, less the elements' sizes and 4). */
  function MeasureAt(data: seq<byte>, le: bool, q: nat, varSize: int, kindOf: byte -> OrnamentKind): (r: Result<(Measure, nat), DecodeError>)
    ensures r.Ok? ==> r.value.1 > q
  {
    match Stream(data, le, kindOf, q + 54)
    case Unsupported(t) => Err(UnsupportedElemType(t))
    case Elements(es, elemSize, end) =>
      var varsize := Int32(varSize);
      Ok((MeasureHeadAt(data, le, q, varsize).(elems := es), end + Max(varsize - elemSize - 4, 0)))
  }

  /** In a little-endian file the jump mark (bits 8-15 of the coda field) is
    * the byte at offset 26 of the measure. */
  lemma RepeatMarkIsByte26(data: seq<byte>, q: nat, m: Measure)
    requires q + 29 <= |data| && m.coda == U32(data, true, q + 25)
    ensures RepeatByte(m) == data[q + 26]
  {
    var lo := U16(data, true, q + 25);
    var hi := U16(data, true, q + 27);
    assert lo == B(data, q + 25) + 256 * B(data, q + 26);
    assert m.coda == lo + 0x1_0000 * hi;
    assert m.coda % 0x1_0000 == lo;
  }

  method ReadMeasureHead(c: Cursor, varsize: int) returns (m: Measure)
    requires c.Valid()
    modifies c`pos
    ensures c.Valid() && c.pos == Clamp(c.data, old(c.pos) + 54)
    ensures m == MeasureHeadAt(c.data, c.littleEndian, old(c.pos), varsize)
  {
    ghost var p := c.pos;
    var bpm := c.ReadU16(p);
    var timeSigGlyph := c.ReadU8(p + 2);
    c.Skip(1, p + 3);
    var beatTicks := c.ReadU16(p + 4);
    var durTicks := c.ReadU16(p + 6);
    var timeSigNum := c.ReadU8(p + 8);
    var timeSigDen := c.ReadU8(p + 9);
    c.Skip(2, p + 10);
    var barTypeStart := c.ReadU8(p + 12);
    var barTypeEnd := c.ReadU8(p + 13);
    var repeatMarker := c.ReadU8(p + 14);
    var repeatAlternative := c.ReadU8(p + 15);
    c.Skip(9, p + 16);
    var coda := c.ReadU32(p + 25);
    c.Skip(59 - 34, p + 29);
    m := Measure(varsize, bpm, timeSigGlyph, beatTicks, durTicks, timeSigNum, timeSigDen,
                 barTypeStart, barTypeEnd, repeatMarker, repeatAlternative, coda, []);
  }

  /** The cases of Stream, one per way a pass of the loop can go. */
  lemma StreamEnds(data: seq<byte>, le: bool, kindOf: byte -> OrnamentKind, q: nat)
    ensures q + 2 > |data| || U16(data, le, q) == 0xFFFF ==> Stream(data, le, kindOf, q) == Elements([], 0, q + 2)
    ensures q + 2 <= |data| && U16(data, le, q) != 0xFFFF && U8(data, q + 2) == 0xFF ==>
              Stream(data, le, kindOf, q) == Elements([], 0, q + 4)
  {
  }

  lemma StreamFails(data: seq<byte>, le: bool, kindOf: byte -> OrnamentKind, q: nat)
    requires q + 2 <= |data| && U16(data, le, q) != 0xFFFF && U8(data, q + 2) != 0xFF
    requires !SupportedElemType(TypeAt(data, q))
    ensures Stream(data, le, kindOf, q) == Unsupported(TypeAt(data, q))
  {
  }

  lemma StreamContinues(data: seq<byte>, le: bool, kindOf: byte -> OrnamentKind, q: nat)
    requires q + 2 <= |data| && U16(data, le, q) != 0xFFFF && U8(data, q + 2) != 0xFF
    requires SupportedElemType(TypeAt(data, q))
    ensures var e := ElemAt(data, le, q, kindOf);
            Stream(data, le, kindOf, q) == Prefixed(Kept(e), e.size, Stream(data, le, kindOf, ElemEnd(data, q)))
  {
  }

  lemma PrefixedTwice(a: seq<Elem>, x: int, b: seq<Elem>, y: int, r: Elements)
    ensures Prefixed(a, x, Prefixed(b, y, r)) == Prefixed(a + b, x + y, r)
  {
    if r.Elements? {
      assert a + (b + r.elems) == (a + b) + r.elems;
    }
  }

  /** The element loop of EncMeasure::read, also stopping when the tick
    * cannot be read because the data is exhausted. */
  method ReadElements(c: Cursor, q0: nat, kindOf: byte -> OrnamentKind) returns (r: Elements)
    requires c.Valid() && c.pos == Clamp(c.data, q0)
    modifies c`pos
    ensures c.Valid() && r == Stream(c.data, c.littleEndian, kindOf, q0)
    ensures r.Elements? ==> c.pos == Clamp(c.data, r.end)
  {
    ghost var data, le := c.data, c.littleEndian;
    var q: nat := q0;
    var elems: seq<Elem> := [];
    var elemSize := 0;
    while true
      invariant c.Valid() && c.pos == Clamp(data, q) && c.data == data && c.littleEndian == le
      invariant Stream(data, le, kindOf, q0) == Prefixed(elems, elemSize, Stream(data, le, kindOf, q))
      decreases |c.data| - c.pos
    {
      var step := ReadStep(c, q, kindOf);
      match step
      case Stop(end) =>
        q := end;
        break;
      case Bad(t) =>
        return Unsupported(t);
      case Next(e) =>
        PrefixedTwice(elems, elemSize, Kept(e), e.size, Stream(data, le, kindOf, ElemEnd(data, q)));
        elems := elems + Kept(e);
        elemSize := elemSize + e.size;
        q := ElemEnd(c.data, q);
    }
    r := Elements(elems, elemSize, q);
  }

  /** How one pass of the element loop ends: with an element read, at the
    * end marker, or at an element type without a reader. */
  datatype ElemStep = Next(e: Elem) | Stop(end: nat) | Bad(t: nibble)

  /** One pass of the element loop. */
  method ReadStep(c: Cursor, q: nat, kindOf: byte -> OrnamentKind) returns (step: ElemStep)
    requires c.Valid() && c.pos == Clamp(c.data, q)
    modifies c`pos
    ensures c.Valid()
    ensures match step
            case Stop(end) => Stream(c.data, c.littleEndian, kindOf, q) == Elements([], 0, end) && c.pos == Clamp(c.data, end)
            case Bad(t) => Stream(c.data, c.littleEndian, kindOf, q) == Unsupported(t)
            case Next(e) =>
              Stream(c.data, c.littleEndian, kindOf, q) ==
                Prefixed(Kept(e), e.size, Stream(c.data, c.littleEndian, kindOf, ElemEnd(c.data, q))) &&
              c.pos == Clamp(c.data, ElemEnd(c.data, q)) && old(c.pos) < c.pos
  {
    var exhausted := c.pos + 2 > |c.data|;
    StreamEnds(c.data, c.littleEndian, kindOf, q);
    var tick := c.ReadU16(q);
    if exhausted || tick == 0xFFFF {
      return Stop(q + 2);
    }
    var typeVoice := c.ReadU8(q + 2);
    if typeVoice == 0xFF {
      var _ := c.ReadU8(q + 3);
      return Stop(q + 4);
    }
    if !SupportedElemType(typeVoice / 16) {
      StreamFails(c.data, c.littleEndian, kindOf, q);
      return Bad(typeVoice / 16);
    }
    StreamContinues(c.data, c.littleEndian, kindOf, q);
    var e := ReadElem(c, q, tick, typeVoice, kindOf);
    step := Next(e);
  }

  /** EncMeasure::read. */
  method ReadMeasure(c: Cursor, varSize: int, kindOf: byte -> OrnamentKind) returns (r: Result<Measure, DecodeError>)
    requires c.Valid()
    modifies c`pos
    ensures c.Valid()
    ensures match MeasureAt(c.data, c.littleEndian, old(c.pos), varSize, kindOf)
            case Ok((m, e)) => r == Ok(m) && c.pos == Clamp(c.data, e)
            case Err(err) => r == Err(err)
  {
    var p := c.pos;
    var varsize := Int32(varSize);
    var m := ReadMeasureHead(c, varsize);
    var es := ReadElements(c, p + 54, kindOf);
    if es.Unsupported? {
      return Err(UnsupportedElemType(es.elemType));
    }
    var remaining := varsize - es.elemSize - 4;
    c.Skip(remaining, es.end);
    r := Ok(m.(elems := es.elems));
  }
}
