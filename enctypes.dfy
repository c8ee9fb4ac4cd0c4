/** The entities an Encore file decodes into: the header, instruments, system
  * lines with their staff records, measures with their elements, and the
  * text and title blocks, together with the small enumerations and inline
  * accessors the rest of the program reads them through. */
module EncTypes {
  import opened Bytes
  import opened Wrappers

  type nibble = n: int | 0 <= n < 16

  /** Text is kept as the UTF-16 code units a QString holds. */
  type Text = seq<int>

  /** Element type codes: the high nibble of an element's type/voice byte. */
  const ELEM_NONE := 0
  const ELEM_CLEF := 1
  const ELEM_KEYCHANGE := 2
  const ELEM_TIE := 3
  const ELEM_BEAM := 4
  const ELEM_ORNAMENT := 5
  const ELEM_LYRIC := 6
  const ELEM_CHORD := 7
  const ELEM_REST := 8
  const ELEM_NOTE := 9
  /** The two element types the decoder skips over without interpreting; the
    * enumeration that names them is not part of this model, and they are
    * taken to follow NOTE. */
  const ELEM_UNKNOWN1 := 10
  const ELEM_UNKNOWN2 := 11

  /** The types the measure decoder has a reader for; any other aborts it. */
  predicate SupportedElemType(t: nibble)
  {
    t <= ELEM_UNKNOWN2
  }

  /** The kinds of ornament the converter distinguishes (ornamentType). */
  datatype OrnamentKind = SlurStart | SlurStop | WedgeStart | WedgeStop | StaffText | Tempo | OtherOrnament

  /** What a type/voice byte's reader adds to the common element fields. */
  datatype Body =
    | NoneBody
    | ClefBody
    | KeyChangeBody(tipo: byte)
    | TieBody
    | BeamBody
    | OrnamentBody(kind: OrnamentKind, alMezuro: byte, xoffset2: byte, speguleco: int,
                   noto: byte, tempo: byte, tind: byte)
    | LyricBody
    | ChordBody(toniko: byte, tipo: byte, radiko: byte, baso: byte, teksto: Text)
    | RestBody(faceValue: byte, tuplet: byte, dotControl: byte)
    | NoteBody(faceValue: byte, grace1: byte, grace2: byte, position: int, tuplet: byte,
               dotControl: byte, semiTonePitch: byte, playbackDurTicks: int, velocity: byte,
               options: byte, alterationGlyph: byte, articulationUp: byte, articulationDown: byte)
    | UnknownBody

  /** One measure element: the fields every element has, then its body. */
  datatype Elem = Elem(tick: int, elemType: nibble, voice: nibble, size: byte,
                       staffIdx: int, xoffset: byte, body: Body)
  {
    predicate IsNote() { body.NoteBody? }
    predicate IsRest() { body.RestBody? }
    predicate IsOrnament() { body.OrnamentBody? }
  }

  /** A "MEAS" block. */
  datatype Measure = Measure(varsize: int, bpm: int, timeSigGlyph: byte, beatTicks: int,
                             durTicks: int, timeSigNum: byte, timeSigDen: byte,
                             barTypeStart: byte, barTypeEnd: byte, repeatMarker: byte,
                             repeatAlternative: byte, coda: int, elems: seq<Elem>)

  /** One staff of a system, as a "LINE" block describes it (30 bytes). */
  datatype StaffData = StaffData(clef: int, key: byte, pageIdx: byte, staffType: byte, instrStaffIdx: byte)

  /** A "LINE" block: one system. */
  datatype Line = Line(offset: int, start: int, measureCount: byte, staffData: seq<StaffData>)

  /** The fixed file header. An unrecognised magic leaves the magic empty and
    * every other field zero. */
  datatype Header = Header(magic: seq<int>, chuMagio: byte, chuVersio: int, nekon1: int, fiksa1: int,
                           lineCount: int, pageCount: int, instrumentCount: int,
                           staffPerSystem: int, measureCount: int)

  /** A "TKnn" block, or an instrument made up when the file has none. */
  datatype Instrument = Instrument(offset: int, name: Text, nstaves: int)

  /** Characters of instrument names and title items are one or two bytes wide. */
  datatype CharSize = OneByte | TwoBytes

  datatype TextBlock = TextBlock(varsize: int, texts: seq<Text>)

  datatype Title = Title(varsize: int, title: Text, subtitle: seq<Text>, instruction: seq<Text>,
                         author: seq<Text>, header: seq<Text>, footer: seq<Text>, copyright: seq<Text>)

  /** Everything EncFile::read leaves behind. */
  datatype EncFile = EncFile(header: Header, instruments: seq<Instrument>, lines: seq<Line>,
                             measures: seq<Measure>, text: TextBlock, title: Title)

  /** The ornament kind of a decoded tipo byte and the instrument a staff
    * record belongs to are computed by accessors whose definitions are not
    * part of this model; the decoder and the post-decode passes take them as
    * parameters. */
  datatype Accessors = Accessors(ornamentKind: byte -> OrnamentKind, instrumentIndex: StaffData -> int)

  const EmptyHeader := Header([], 0, 0, 0, 0, 0, 0, 0, 0, 0)
  const EmptyText := TextBlock(0, [])
  const EmptyTitle := Title(0, [], [], [], [], [], [], [])

  /** Why a file cannot be decoded: the C++ program aborts in each case (an
    * element type without a reader, no LINE block to count staves from, a
    * spanner whose end lies beyond the last measure). */
  datatype DecodeError =
    | UnsupportedElemType(elemType: nibble)
    | NoSystemLine
    | SpannerEndOutOfRange(measure: nat)

  /** Upper and lower nibble of a tuplet byte: actualNotes() and normalNotes(). */
  function ActualNotes(tuplet: byte): (a: nibble)
    ensures a * 16 <= tuplet < (a + 1) * 16
  {
    tuplet / 16
  }

  function NormalNotes(tuplet: byte): (n: nibble)
    ensures (tuplet - n) % 16 == 0
  {
    tuplet % 16
  }

  /** The two nibbles together are the whole tuplet byte. */
  lemma TupletNibbles(tuplet: byte)
    ensures 16 * ActualNotes(tuplet) + NormalNotes(tuplet) == tuplet
  {
  }

  /** The type of grace note a note's two grace bytes describe. */
  datatype GraceType = NormalNote | Acciaccatura | Appoggiatura

  function GraceOf(grace1: byte, grace2: byte): GraceType
  {
    var g1 := 16 * (grace1 / 16 % 4);             // grace1 & 0x30
    var g2 := grace2 % 2 + 4 * (grace2 / 4 % 2);  // grace2 & 0x05
    if g1 == 0x20 && g2 == 0x04 then Acciaccatura
    else if g1 > 0x10 && g2 != 0x01 then Appoggiatura
    else NormalNote
  }

  /** Bits 4 and 5 of the first grace byte and bits 0 and 2 of the second are
    * the only ones that matter: bit 5 clear means a normal note; bits 4-5
    * equal to 2 make an acciaccatura when the second byte's bits are 4 and a
    * normal note when they are 1; bits 4-5 equal to 3 make an appoggiatura
    * unless the second byte's bits are 1. */
  lemma GraceTable(grace1: byte, grace2: byte)
    ensures var hi := grace1 / 16 % 4; var lo := grace2 % 2 + 4 * (grace2 / 4 % 2);
            GraceOf(grace1, grace2) ==
              if hi < 2 || lo == 1 then NormalNote
              else if hi == 2 && lo == 4 then Acciaccatura
              else Appoggiatura
  {
  }

  /** The barline codes a measure's start and end bytes may hold. */
  datatype Barline = Normal | RepeatStart | DoubleL | RepeatEnd | Final | DoubleR

  function BarlineOf(code: byte): (b: Option<Barline>)
    ensures b.Some? <==> code in {0, 2, 3, 4, 5, 6}
  {
    match code
    case 0 => Some(Normal)
    case 2 => Some(RepeatStart)
    case 3 => Some(DoubleL)
    case 4 => Some(RepeatEnd)
    case 5 => Some(Final)
    case 6 => Some(DoubleR)
    case _ => None
  }

  /** The jump marks held in the second least significant byte of a
    * measure's coda field. */
  datatype RepeatMark = NoRepeat | DcAlCoda | DsAlCoda | DcAlFine | DsAlFine | Ds | Coda1 | Fine | Dc | Segno | Coda2

  /** repeat(): bits 8 to 15 of the coda field. */
  function RepeatByte(m: Measure): (r: byte)
    requires 0 <= m.coda
    ensures r == (m.coda % 0x1_0000) / 0x100
  {
    (m.coda / 0x100) % 0x100
  }

  function RepeatMarkOf(code: byte): (r: Option<RepeatMark>)
    ensures r.Some? <==> code == 0 || 0x80 <= code <= 0x89
  {
    if code == 0 then Some(NoRepeat)
    else if code < 0x80 || code > 0x89 then None
    else Some([DcAlCoda, DsAlCoda, DcAlFine, DsAlFine, Ds, Coda1, Fine, Dc, Segno, Coda2][code - 0x80])
  }

  /** push_back: a measure element is appended after the existing ones. */
  function PushBack(m: Measure, e: Elem): (r: Measure)
    ensures |r.elems| == |m.elems| + 1 && r.elems[..|m.elems|] == m.elems && r.elems[|m.elems|] == e
    ensures r.(elems := m.elems) == m
  {
    m.(elems := m.elems + [e])
  }
}
