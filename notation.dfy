/** Pitch spelling and key signatures shared by both MusicXML renderers. */
module Notation {
  import opened Bytes

  /** The step letter and alteration of each pitch class, spelled with sharps. */
  const NoteTab: seq<char> := ['C', 'C', 'D', 'D', 'E', 'F', 'F', 'G', 'G', 'A', 'A', 'B']
  const AlterTab: seq<int> := [0, 1, 0, 1, 0, 0, 1, 0, 1, 0, 1, 0]

  /** accidentalType codes of a note's alteration glyph. */
  const ACCID_NONE := 0
  const ACCID_SHARP := 1
  const ACCID_FLAT := 2
  const ACCID_NATURAL := 3

  predicate IsStep(c: char)
  {
    c in {'A', 'B', 'C', 'D', 'E', 'F', 'G'}
  }

  /** The pitch class of a natural step. */
  function Semitone(step: char): int
  {
    match step
    case 'C' => 0
    case 'D' => 2
    case 'E' => 4
    case 'F' => 5
    case 'G' => 7
    case 'A' => 9
    case 'B' => 11
    case _ => 0
  }

  /** A MusicXML pitch: step, alter and octave. */
  datatype Spelling = Spelling(step: char, alter: int, octave: int)

  /** The MIDI pitch a spelling denotes (C4 is 60). */
  function SpelledPitch(s: Spelling): int
  {
    Semitone(s.step) + s.alter + 12 * (s.octave + 1)
  }

  /** Each entry of the two tables spells its own pitch class. */
  lemma TablesSpellPitchClass(r: nat)
    requires r < 12
    ensures IsStep(NoteTab[r]) && Semitone(NoteTab[r]) + AlterTab[r] == r
  {
  }

  /** noteTab[p % 12], alterTab[p % 12], octave p / 12 - 1: the sharp spelling. */
  function SharpSpelling(pitch: byte): (s: Spelling)
    ensures IsStep(s.step) && 0 <= s.alter <= 1 && SpelledPitch(s) == pitch
  {
    TablesSpellPitchClass(pitch % 12);
    Spelling(NoteTab[pitch % 12], AlterTab[pitch % 12], pitch / 12 - 1)
  }

  /** noteTab[(p + 1) % 12] with alter -1 and octave (p + 1) / 12 - 1: the
    * spelling as a flattened upper neighbour. It names the pitch only when
    * that neighbour is a white key; on a white key whose upper neighbour is
    * black it names the pitch a semitone lower. */
  function FlatSpelling(pitch: byte): (s: Spelling)
    ensures IsStep(s.step) && s.alter == -1
    ensures SpelledPitch(s) == pitch - AlterTab[(pitch + 1) % 12]
  {
    TablesSpellPitchClass((pitch + 1) % 12);
    Spelling(NoteTab[(pitch + 1) % 12], -1, (pitch + 1) / 12 - 1)
  }

  /** A black key is spelled as a flat exactly: its upper neighbour is white. */
  lemma BlackKeyFlatIsExact(pitch: byte)
    requires AlterTab[pitch % 12] == 1
    ensures SpelledPitch(FlatSpelling(pitch)) == pitch
  {
    var q, r := pitch / 12, pitch % 12;
    assert pitch == 12 * q + r;
    assert r < 11 by { assert AlterTab[11] == 0; }
    assert (pitch + 1) % 12 == r + 1 && (pitch + 1) / 12 == q;
    assert AlterTab[r + 1] == 0 by { assert r in {1, 3, 6, 8, 10}; }
    TablesSpellPitchClass(r + 1);
  }

  /** midipitch2xml of the converter: an explicit flat is spelled as the
    * flattened upper neighbour; a black key without an accidental is spelled
    * flat in a flat key and sharp otherwise; everything else is spelled with
    * the sharp tables. */
  function MidiPitchToXml(pitch: byte, accid: byte, fifths: int): (s: Spelling)
    ensures IsStep(s.step) && -1 <= s.alter <= 1
    ensures accid != ACCID_FLAT ==> SpelledPitch(s) == pitch
    ensures s.alter == -1 <==> accid == ACCID_FLAT || (AlterTab[pitch % 12] == 1 && accid == ACCID_NONE && fifths < 0)
  {
    if accid == ACCID_FLAT then FlatSpelling(pitch)
    else if AlterTab[pitch % 12] == 1 && accid == ACCID_NONE && fifths < 0 then
      BlackKeyFlatIsExact(pitch);
      FlatSpelling(pitch)
    else SharpSpelling(pitch)
  }

  /** An explicit flat names the note's pitch exactly when the pitch has a
    * spelling with a single flat, that is when its upper neighbour is a
    * white key. */
  lemma ExplicitFlatExactIff(pitch: byte, fifths: int)
    ensures SpelledPitch(MidiPitchToXml(pitch, ACCID_FLAT, fifths)) == pitch <==> AlterTab[(pitch + 1) % 12] == 0
  {
  }

  /** Middle C, E flat in a flat key, and the same black key in a sharp key. */
  lemma SpellingExamples()
    ensures MidiPitchToXml(60, ACCID_NONE, 0) == Spelling('C', 0, 4)
    ensures MidiPitchToXml(63, ACCID_NONE, -3) == Spelling('E', -1, 4)
    ensures MidiPitchToXml(63, ACCID_NONE, 2) == Spelling('D', 1, 4)
    ensures MidiPitchToXml(64, ACCID_FLAT, 0) == Spelling('F', -1, 4)
  {
  }

  /** The plain file writer spells every pitch with the sharp tables; the
    * converter agrees with it except on explicit flats and on black keys
    * without an accidental in a flat key. */
  lemma ConverterAgreesWithSharpSpelling(pitch: byte, accid: byte, fifths: int)
    ensures MidiPitchToXml(pitch, accid, fifths) == SharpSpelling(pitch) <==>
            accid != ACCID_FLAT && !(AlterTab[pitch % 12] == 1 && accid == ACCID_NONE && fifths < 0)
  {
  }

  /** encKeyToFifths: key codes 0 to 14 are C, then one to seven flats, then
    * one to seven sharps; a code of 15 or more is out of range of the table. */
  function EncKeyToFifths(key: nat): (f: int)
    requires key < 15
    ensures -7 <= f <= 7
    ensures key <= 7 ==> f + key == 0
    ensures key >= 8 ==> f == key - 7
  {
    [0, -1, -2, -3, -4, -5, -6, -7, 1, 2, 3, 4, 5, 6, 7][key]
  }

  /** The key code of a number of fifths: the inverse of the table. */
  function FifthsToEncKey(f: int): (key: nat)
    requires -7 <= f <= 7
    ensures key < 15
  {
    if f <= 0 then -f else f + 7
  }

  lemma KeyTableRoundTrip(key: nat, f: int)
    requires key < 15 && -7 <= f <= 7
    ensures FifthsToEncKey(EncKeyToFifths(key)) == key
    ensures EncKeyToFifths(FifthsToEncKey(f)) == f
  {
  }
}
