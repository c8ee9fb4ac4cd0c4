# Encore to MusicXML: a verified model of the decoder and the converter core

This project models, in Dafny, the core of a converter that reads Encore score files and writes MusicXML. It covers:

- **The Encore decoder.** It scans an in-memory copy of the file for four-byte block tags ("SCOW"/"SCO5" header, "TKnn" instruments, "LINE", "MEAS", "TEXT", "TITL"). It decodes each block field by field through a QDataStream-like cursor. It then runs the post-decode passes: made-up instruments when the file has none, staff counting, and the spanner ends appended to the measures where slurs and wedges stop.
- **The note connector.** It links every slur and wedge ornament to the notes where it starts and stops. It answers the tie and direction queries the writer asks.
- **The converter helpers in `mxmlconvert.cpp`.** Face value to duration, dots and tuplets, grace notes, MIDI pitch spelling, key signatures, alternative endings and their numbers, chord detection, multi-line strings, and the per-voice tick accumulation of a measure.
- **The same helpers in the older writer `mxmlfile.cpp`.** Its duration table, the stable order in which a measure's elements are written, and the durations written for them.

The decoder is written the way the program works: a `Cursor` class holds the byte position and byte order. Each `Read…` method advances it and is proved against a function that states where every field sits relative to the start of the block (`HeaderAt`, `LineAt`, `InstrumentAt`, `MeasureAt`, `TitleAt`, and so on). A read past the end yields 0 and leaves the cursor at the end, as QDataStream does, so the specifications hold for truncated files too. The decoded file is an immutable `EncFile` value. The program's fatal exits become `DecodeError` results:

- an element type without a reader;
- no LINE block to count staves from;
- a spanner that ends beyond the last measure.

The note connector keeps its measure numbers and its four handle-to-handle maps as fields of a `NoteConnector` class; handles are (measure, element) index pairs. The tuplet handler is a class with its two counters. The duration, pitch and ending helpers are functions, and each loop of the source is a method proved equal to its function.

## Model

| member | source | states |
|---|---|---|
| Bytes.U8 | src/encfile.cpp:44-55 | one byte at an offset, and 0 once the data has ended |
| Bytes.U16 | src/encfile.cpp:132-159 | a 16-bit read is in range, and 0 when fewer than two bytes remain |
| Bytes.U32 | src/encfile.cpp:1140-1141 | a 32-bit read is in range, and 0 when fewer than four bytes remain |
| Bytes.U32LittleEndian | src/encfile.cpp:1140-1141 | a little-endian 32-bit value is its four bytes weighted 1, 2^8, 2^16, 2^24 |
| Bytes.U16ByteSwap | src/encfile.cpp:136-141 | reading little-endian is reading the two bytes swapped in big-endian order |
| Bytes.I8 | src/encfile.cpp:278-300 | an unsigned byte reinterpreted as qint8 is in -128..127 and congruent to it modulo 256 |
| Bytes.I16 | src/encfile.cpp:132-159 | a 16-bit value reinterpreted as qint16 is in range and congruent modulo 2^16 |
| Bytes.Int32 | src/encfile.cpp:315-338 | the skip count computed in int is in the 32-bit range and congruent to the exact value |
| Bytes.WrapSub32 | src/encfile.cpp:870-880 | an unsigned 32-bit subtraction is the difference, plus 2^32 when it would be negative |
| Bytes.WrapSub32IsModular | src/encfile.cpp:870-880 | the unsigned subtraction is the difference modulo 2^32 |
| Cursors.Cursor.ReadU8 | src/encfile.cpp:44-55 | the byte at the logical offset, and the position moves one byte, clamped to the end |
| Cursors.Cursor.ReadU16 | src/encfile.cpp:132-159 | the 16-bit value in the stream's byte order, and the position moves two bytes, clamped |
| Cursors.Cursor.ReadU32 | src/encfile.cpp:1140-1141 | the 32-bit value in the stream's byte order, and the position moves four bytes, clamped |
| Cursors.Cursor.Skip | src/encfile.cpp:435-440 | skipping moves the position by the count when it is positive, never past the end |
| EncTypes.ActualNotes | src/encfile.h:264 | actualNotes is the tuplet byte's high nibble |
| EncTypes.NormalNotes | src/encfile.h:265 | normalNotes is congruent to the tuplet byte modulo 16 |
| EncTypes.TupletNibbles | src/encfile.h:264-265 | the two nibbles together rebuild the tuplet byte |
| EncTypes.GraceTable | src/encfile.cpp:785-799 | the grace type as a table over bits 4-5 of grace1 and bits 0 and 2 of grace2 |
| EncTypes.BarlineOf | src/encfile.h:312-319 | exactly the codes 0 and 2..6 name a barline |
| EncTypes.RepeatByte | src/encfile.h:346 | repeat() is bits 8..15 of the coda field |
| EncTypes.RepeatMarkOf | src/encfile.h:322-334 | exactly 0 and 0x80..0x89 name a jump mark |
| EncTypes.PushBack | src/encfile.cpp:429-430 | appending an element keeps the earlier elements and every other measure field |
| EncMagic.FirstKnownFrom | src/encfile.cpp:80-87 | a found offset holds a known tag ("LINE", "MEAS", "TITL", "TEXT" or "TK" with two digits) at or after the start |
| EncMagic.FirstKnownIsFirst | src/encfile.cpp:95-120 | no window before the found tag is a known tag, and when none is found no window from the start is |
| EncMagic.SkipsUnknownBytes | src/encfile.cpp:95-120 | bytes holding no known tag are skipped, and the scan stops at the known tag after them |
| EncMagic.ReadMagic | src/encfile.cpp:44-55 | readMagic returns the next four bytes, or fewer at the end of the data |
| EncMagic.FindNextKnownMagic | src/encfile.cpp:95-120 | the sliding-window scan returns the first known tag and leaves the stream after it, or returns an empty tag at the end |
| EncMagic.SlideWindow | src/encfile.cpp:105-110 | one slide drops the first byte, reads the next, and keeps the first known tag ahead unchanged |
| EncBlocks.HeaderAt | src/encfile.cpp:132-159 | a header is decoded exactly when the magic is SCOW or SCO5; SCOW makes the stream little-endian; the header spans 0xC2 bytes; an unknown magic leaves every field zero |
| EncBlocks.ReadHeader | src/encfile.cpp:132-159 | EncHeader::read computes HeaderAt and succeeds exactly when the magic is known |
| EncBlocks.ReadHeaderFields | src/encfile.cpp:147-157 | each header field is read at its fixed offset (version at 0x28, counts at 0x2E..0x35) |
| EncBlocks.ReadVersion | src/encfile.cpp:147-151 | the magic byte and the three version words sit at offsets 4, 0x28, 0x2A and 0x2C |
| EncBlocks.ReadCounts | src/encfile.cpp:152-157 | the line, page, instrument, staff-per-system and measure counts sit at 0x2E..0x35 |
| EncBlocks.ReadStaffData | src/encfile.cpp:278-300 | a staff record is 30 bytes, with the signed clef at 14, the key at 15, then page, type and instrument staff index |
| EncBlocks.LineAt | src/encfile.cpp:315-338 | a LINE block holds one staff record every 30 bytes from offset 13, as many as the header's staffPerSystem |
| EncBlocks.LineEndsAtDeclaredSize | src/encfile.cpp:315-338 | when the records fit, the block ends exactly at its declared size |
| EncBlocks.ReadLine | src/encfile.cpp:315-338 | EncLine::read computes LineAt and leaves the stream at its end |
| EncBlocks.Width | src/encfile.cpp:231-234 | a character is one or two bytes wide |
| EncBlocks.CharAt | src/encfile.cpp:189-226 | a non-zero character was read from inside the data |
| EncBlocks.NameIsTerminated | src/encfile.cpp:203-222 | the instrument name is the characters before the first zero character |
| EncBlocks.ReadChar | src/encfile.cpp:204-213 | one character of the instrument's width |
| EncBlocks.InstrumentEnd | src/encfile.cpp:189-226 | an instrument block ends after its name, or at its declared size when that is larger |
| EncBlocks.ReadInstrument | src/encfile.cpp:189-226 | EncInstrument::read computes InstrumentAt and leaves the stream at its end |
| EncBlocks.ReadName | src/encfile.cpp:199-222 | the name loop reads up to the terminating zero and counts the bytes read |
| EncBlocks.UnitsArePrefix | src/encfile.cpp:880-888 | a text is the code units before the first stop unit, within the count |
| EncBlocks.ReadUnits | src/encfile.cpp:880-888 | the unit loop returns exactly those units and skips the whole field |
| EncBlocks.ReadSingleText | src/encfile.cpp:868-891 | readSingleText computes SingleTextAt |
| EncBlocks.TextsFrom | src/encfile.cpp:894-925 | a TEXT block yields exactly as many texts as it declares |
| EncBlocks.TextBlockAt | src/encfile.cpp:894-925 | a later TEXT block appends its texts after the earlier ones |
| EncBlocks.ReadText | src/encfile.cpp:894-925 | EncText::read computes TextBlockAt |
| EncBlocks.ReadTexts | src/encfile.cpp:905-907 | the text loop reads the declared number of texts in order |
| EncBlocks.ItemsAt | src/encfile.cpp:979-1005 | a title group has one item per slot |
| EncBlocks.ItemsAtNext | src/encfile.cpp:979-1005 | the items of a group are read one after another at fixed item strides |
| EncBlocks.TitleAt | src/encfile.cpp:979-1005 | a TITL block moves the stream forward |
| EncBlocks.TitleSpan | src/encfile.cpp:979-1005 | a TITL block spans 2426 bytes with one-byte characters and 21242 with two |
| EncBlocks.ReadTextItem | src/encfile.cpp:935-976 | readTextItem reads one item of its fixed size |
| EncBlocks.ReadTextItems | src/encfile.cpp:979-1005 | consecutive items are read in order |
| EncBlocks.ReadGroup | src/encfile.cpp:979-1005 | a group of title items is read from its first slot |
| EncBlocks.ReadTitle | src/encfile.cpp:979-1005 | EncTitle::read computes TitleAt: title, subtitle, instruction, author, header, footer and copyright |
| EncBlocks.ReadFrontGroups | src/encfile.cpp:986-988 | subtitle (2), instruction (3) and author (4) items follow the title |
| EncBlocks.ReadBackGroups | src/encfile.cpp:989-991 | header (2), footer (2) and copyright (6) items follow |
| EncMeasures.ElemEnd | src/encfile.cpp:455-470 | an element covers at least its five common bytes |
| EncMeasures.ElemSpansDeclaredSize | src/encfile.cpp:455-470 | an element whose size covers its fixed fields ends at its declared size |
| EncMeasures.ReadNote | src/encfile.cpp:738-782 | a note's fields at their offsets, and the stream at the larger of 27 and its size |
| EncMeasures.ReadRest | src/encfile.cpp:813-834 | a rest's fields, and the stream at the larger of 15 and its size |
| EncMeasures.ReadOrnament | src/encfile.cpp:610-645 | an ornament's fields, and the stream at the larger of 33 and its size |
| EncMeasures.ReadChord | src/encfile.cpp:680-725 | a chord's fields; its text is read only when bit 0 of tipo is set |
| EncMeasures.ReadPlain | src/encfile.cpp:483-667 | none, clef, key change, tie, beam, lyric and unknown elements skip to their declared size |
| EncMeasures.ReadElem | src/encfile.cpp:396-428 | the reader chosen by the type nibble decodes ElemAt and leaves the stream at ElemEnd |
| EncMeasures.TruncatedMeasureNeverEnds | src/encfile.cpp:381-433 | as written, a MEAS block cut before its 0xFFFF sentinel never finishes, whatever the fuel |
| EncMeasures.Stream | src/encfile.cpp:381-433 | the corrected element loop keeps no NONE element and only supported types, and ends after its start |
| EncMeasures.StreamAgreesWithSource | src/encfile.cpp:381-433 | wherever the loop as written finishes, the corrected loop gives the same elements |
| EncMeasures.MeasureAt | src/encfile.cpp:344-442 | a decoded measure moves the stream forward |
| EncMeasures.RepeatMarkIsByte26 | src/encfile.h:346 | in a little-endian file, repeat() is the measure's byte at offset 26 |
| EncMeasures.ReadMeasureHead | src/encfile.cpp:344-376 | the measure's fixed fields at their offsets over 54 bytes |
| EncMeasures.StreamEnds | src/encfile.cpp:381-393 | the loop stops on a 0xFFFF tick, and on 0xFF in the type byte after skipping one byte |
| EncMeasures.StreamFails | src/encfile.cpp:421-425 | an element type without a reader is an error |
| EncMeasures.StreamContinues | src/encfile.cpp:396-432 | otherwise the element is decoded, kept unless NONE, and the loop goes on after it |
| EncMeasures.ReadElements | src/encfile.cpp:381-433 | the element loop computes Stream |
| EncMeasures.ReadStep | src/encfile.cpp:381-432 | one pass of the loop: stop, fail, or one element and the rest of the stream |
| EncMeasures.ReadMeasure | src/encfile.cpp:344-442 | EncMeasure::read computes MeasureAt, including the skip of the remaining bytes |
| EncPost.Decimal | src/encfile.cpp:1096-1098 | the decimal text of a number is digits only, with a leading zero only for 0 |
| EncPost.DecimalRoundTrip | src/encfile.cpp:1096-1098 | parsing the decimal text of a number gives the number back |
| EncPost.PartNamesDiffer | src/encfile.cpp:1096-1098 | "Part n" names for different numbers differ |
| EncPost.FixupInstruments | src/encfile.cpp:1092-1101 | existing instruments are kept; with none, "Part 1" .. "Part count" are made up |
| EncPost.MadeUpNamesDistinct | src/encfile.cpp:1092-1101 | the made-up instruments have distinct names |
| EncPost.StavesOf | src/encfile.cpp:1108-1119 | an instrument has at most as many staves as the system has records |
| EncPost.CountStaves | src/encfile.cpp:1108-1119 | each instrument's staff count is the number of records whose instrument index is its own; nothing else changes |
| EncPost.TotalStavesSnoc | src/encfile.cpp:1108-1119 | one more record adds one staff to the total exactly when it names an existing instrument |
| EncPost.StaffCountsAddUp | src/encfile.cpp:1108-1119 | the staff counts add up to the number of records that name an existing instrument |
| EncPost.AddSpannerEnds | src/encfile.cpp:1036-1084 | addSpannerEnds computes SpannerEnds |
| EncPost.CollectEnds | src/encfile.cpp:1044-1070 | one measure's starts are queued for their end measures, or the first out-of-range end is reported |
| EncPost.Enqueue | src/encfile.cpp:1054-1067 | queuing a stop adds it to exactly its end measure's list |
| EncPost.AppendEnds | src/encfile.cpp:1075-1083 | every measure gets its queued stops after its own elements |
| EncPost.SpannerEndsFailIff | src/encfile.cpp:1036-1084 | the pass fails exactly when some slur or wedge start ends at or beyond the last measure |
| EncPost.SpannerEndsOnlyAppendStops | src/encfile.cpp:1036-1084 | the pass keeps every measure's fields and elements, and everything it adds is a stop for a start alMezuro measures earlier |
| EncPost.EveryStartIsClosed | src/encfile.cpp:1036-1084 | every slur or wedge start gets its stop in measure i + alMezuro |
| EncPost.SpannerEndsCloseStarts | src/encfile.cpp:1036-1084 | every start in the output also finds its stop in the output |
| EncRead.BlockAt | src/encfile.cpp:1138-1167 | each block read moves the stream forward within the data |
| EncRead.BlockBodyAt | src/encfile.cpp:1140-1166 | a block body ends within the data, no earlier than its size word |
| EncRead.ReadBlock | src/encfile.cpp:1139-1166 | one pass of the block loop: find the next known tag, then decode its block |
| EncRead.ReadBlockBody | src/encfile.cpp:1140-1166 | the block is decoded by the reader its tag chooses |
| EncRead.ReadFile | src/encfile.cpp:1132-1174 | EncFile::read computes DecodeFile: header, blocks, then the three post passes |
| EncRead.DecodedStaffCounts | src/encfile.cpp:1132-1174 | a decoded file has a LINE block, and each instrument's staff count is counted from its first system |
| EncRead.EverySpannerClosed | src/encfile.cpp:1132-1174 | in a decoded file, every slur or wedge start has its stop in measure i + alMezuro |
| NoteConnectors.DecodedSpannersInRange | src/noteconnector.cpp:42-59 | every spanner start in a decoded file ends in an existing measure, as the connector needs |
| NoteConnectors.FirstWhere | src/noteconnector.cpp:177-190 | a found index is in range and matches |
| NoteConnectors.FirstWhereIsFirst | src/noteconnector.cpp:177-190 | no earlier element matches, and none at all when nothing is found |
| NoteConnectors.LastWhere | src/noteconnector.cpp:197-212 | a found index is in range and matches |
| NoteConnectors.LastWhereIsLast | src/noteconnector.cpp:197-212 | no later element matches, and none at all when nothing is found |
| NoteConnectors.ClosestIn | src/noteconnector.cpp:151-170 | a found index is a note of the voice and staff |
| NoteConnectors.ClosestIsNearest | src/noteconnector.cpp:151-170 | nothing is found exactly when the measure has no such note; else no note is nearer, and every earlier one is farther |
| NoteConnectors.ClosestPrefersFileOrder | src/noteconnector.cpp:151-170 | of two notes equally near, the first in the measure wins |
| NoteConnectors.LastBeforeFollowsFileOrder | src/noteconnector.cpp:220-234 | "last before" means last in the measure, not nearest on the left |
| NoteConnectors.SlurNotes | src/noteconnector.cpp:91-108 | a slur starts at a note of its own measure and stops at a note alMezuro measures later |
| NoteConnectors.WedgeNotes | src/noteconnector.cpp:115-132 | a wedge starts at a note of its own measure and stops at a note alMezuro measures later |
| NoteConnectors.InsertNote | src/noteconnector.cpp:91-132 | maps from notes to spanners of one kind stay so after an insertion |
| NoteConnectors.LinkKeepsTyped | src/noteconnector.cpp:91-132 | linking keeps both maps from notes to spanners of the kind |
| NoteConnectors.LinkKeepsSame | src/noteconnector.cpp:91-132 | linking keeps the starts and the stops naming the same spanners, adding one new key to each or nothing |
| NoteConnectors.AddSlurTyped | src/noteconnector.cpp:91-108 | initSlur keeps the maps typed and leaves the wedge maps unchanged |
| NoteConnectors.AddSlurPaired | src/noteconnector.cpp:91-108 | initSlur keeps slur starts and stops paired and adds a start and a stop together or nothing |
| NoteConnectors.AddWedgeTyped | src/noteconnector.cpp:115-132 | initWedge keeps the maps typed and leaves the slur maps unchanged |
| NoteConnectors.AddWedgePaired | src/noteconnector.cpp:115-132 | initWedge keeps wedge starts and stops paired and adds a start and a stop together or nothing |
| NoteConnectors.LinkMeasuresTyped | src/noteconnector.cpp:42-59 | after linking all measures, slur maps lead from notes to slurs, wedge maps from notes to wedges |
| NoteConnectors.LinkMeasuresPaired | src/noteconnector.cpp:42-59 | after linking all measures, every spanner with a start note also has a stop note, and vice versa |
| NoteConnectors.DirectionOf | src/noteconnector.cpp:266-290 | no direction for big-endian files; else a staff text or tempo at the note's tick, voice and staff, in its measure |
| NoteConnectors.NoteConnector.constructor | src/noteconnector.cpp:42-59 | construction numbers every element and links every slur and wedge |
| NoteConnectors.NoteConnector.LinkAll | src/noteconnector.cpp:46-58 | the loop over measures builds exactly LinkMeasures |
| NoteConnectors.NoteConnector.LinkMeasure | src/noteconnector.cpp:48-57 | the loop over one measure's elements builds exactly LinkElems |
| NoteConnectors.NoteConnector.InitMeasureNumbers | src/noteconnector.cpp:66-74 | every element handle is mapped to its own measure index, and nothing else is |
| NoteConnectors.NoteConnector.LinkElement | src/noteconnector.cpp:49-56 | a slur start calls initSlur, a wedge start calls initWedge, anything else changes nothing |
| NoteConnectors.NoteConnector.InitSlur | src/noteconnector.cpp:91-108 | initSlur records the slur in both slur maps when its two nearest notes exist, differ and are not yet linked, and otherwise changes nothing |
| NoteConnectors.NoteConnector.InitWedge | src/noteconnector.cpp:115-132 | initWedge records the wedge in both wedge maps when its start note and its last note before the end position exist and are not yet linked, and otherwise changes nothing |
| NoteConnectors.NoteConnector.MeasureNumber | src/noteconnector.cpp:139-144 | an element's measure number is the index of its measure |
| NoteConnectors.NoteConnector.FindClosestNote | src/noteconnector.cpp:151-170 | the search loop computes ClosestIn |
| NoteConnectors.NoteConnector.FindFirstNoteAfterXoffset | src/noteconnector.cpp:177-190 | the first note of the voice and staff to the right of the offset |
| NoteConnectors.NoteConnector.FindLastNote | src/noteconnector.cpp:197-212 | the last note of the voice and staff in the measure |
| NoteConnectors.NoteConnector.FindLastNoteBeforeXoffset | src/noteconnector.cpp:220-234 | the last note of the voice and staff to the left of the offset |
| NoteConnectors.NoteConnector.FindPreviousNote | src/noteconnector.cpp:241-259 | the last earlier note of the voice and staff, and none for a note on the first tick |
| NoteConnectors.TieStartsAt | src/noteconnector.cpp:337-354 | a tie starts at a note only when the note's measure holds a tie at its offset |
| NoteConnectors.TieStopsAt | src/noteconnector.cpp:361-381 | a tie stops at a note only when one starts at a note of the same voice and staff, in this measure or the one before |
| NoteConnectors.NoteConnector.TieStart | src/noteconnector.cpp:337-354 | a tie starts at a note exactly when a tie element matches its tick, voice, staff and offset |
| NoteConnectors.NoteConnector.TieStop | src/noteconnector.cpp:361-381 | a tie stops at a note exactly when one starts at its previous note, in this measure or the one before |
| NoteConnectors.NoteConnector.Direction | src/noteconnector.cpp:266-290 | direction computes DirectionOf |
| NoteConnectors.FindLastWhere | src/noteconnector.cpp:197-212 | the backward search loop computes LastWhere |
| NoteConnectors.FirstWherePrefix | src/noteconnector.cpp:177-190 | a match in a prefix is the match in the whole measure |
| NoteConnectors.NoteConnector.SlurStartAt | src/noteconnector.cpp:297-306 | a slur is found exactly for a note the slur-start map holds, and with typed links it is a slur ornament |
| NoteConnectors.NoteConnector.SlurStopAt | src/noteconnector.cpp:313-322 | a slur is found exactly for a note the slur-stop map holds, and with typed links it is a slur ornament |
| NoteConnectors.NoteConnector.WedgeStartAt | src/noteconnector.cpp:388-396 | a wedge is found exactly for a note the wedge-start map holds, and with typed links it is a wedge ornament |
| NoteConnectors.NoteConnector.WedgeStopAt | src/noteconnector.cpp:403-411 | a wedge is found exactly for a note the wedge-stop map holds, and with typed links it is a wedge ornament |
| NoteConnectors.StartsAndStopsMatch | src/noteconnector.cpp:297-322 | slurStart and slurStop, and wedgeStart and wedgeStop, both name every linked spanner |
| Notation.TablesSpellPitchClass | src/mxmlconvert.cpp:125-126 | the note and alter tables spell each pitch class |
| Notation.SharpSpelling | src/mxmlfile.cpp:75-82 | the plain table spelling uses sharps and sounds the MIDI pitch |
| Notation.FlatSpelling | src/mxmlconvert.cpp:133-157 | the flat spelling lowers the next step, and is off by the next entry's alter |
| Notation.BlackKeyFlatIsExact | src/mxmlconvert.cpp:133-157 | on a black key, the flat spelling sounds the pitch |
| Notation.MidiPitchToXml | src/mxmlconvert.cpp:133-157 | the spelling sounds the pitch unless a flat is forced; a flat is used exactly for an explicit flat or a black key in a flat key |
| Notation.ExplicitFlatExactIff | src/mxmlconvert.cpp:133-157 | an explicit flat is exact exactly when the next semitone is a white key |
| Notation.SpellingExamples | src/mxmlconvert.cpp:133-157 | middle C is C4; 63 is E flat in a flat key and D sharp in a sharp key; 64 with a flat is F flat |
| Notation.ConverterAgreesWithSharpSpelling | src/mxmlconvert.cpp:133-157 | the converter spells like the writer exactly when no flat is chosen |
| Notation.EncKeyToFifths | src/mxmlconvert.cpp:462-470 | codes 0..7 are 0..7 flats, codes 8..14 are 1..7 sharps |
| Notation.KeyTableRoundTrip | src/mxmlconvert.cpp:462-470 | the key table is a bijection between codes 0..14 and fifths -7..7 |
| Tuplets.TupletStep | src/mxmlconvert.cpp:164-211 | NONE exactly outside a tuplet; START exactly on its first note, after which the count is 1 in the note's own face value; STOP and NONE reset the count |
| Tuplets.StepKeepsCounterOk | src/mxmlconvert.cpp:164-211 | the counters stay sound, and after a MID the count is short of actualNotes |
| Tuplets.UnitsScale | src/mxmlconvert.cpp:182-189 | a face value k steps longer counts 2^k units of the shorter one |
| Tuplets.RecountAddsNoteLength | src/mxmlconvert.cpp:180-190 | rescaling adds exactly the new note's length to the count, in units of the shorter value |
| Tuplets.StepAddsNoteLength | src/mxmlconvert.cpp:164-211 | as written, STOP compares the elapsed length with actualNotes notes of the shortest value so far |
| Tuplets.EqualTriplet | src/mxmlconvert.cpp:164-211 | three equal notes of a triplet are START, MID, STOP |
| Tuplets.SplitTripletStopsEarly | src/mxmlconvert.cpp:164-211 | eighth, two sixteenths and eighth in 3:2 are bracketed as two triplets of sixteenths |
| Tuplets.TupletHandler.constructor | src/mxmlconvert.cpp:164-211 | both counters start at zero |
| Tuplets.TupletHandler.NewNote | src/mxmlconvert.cpp:164-211 | newNote's two loops compute TupletStep |
| Tuplets.ScaledStep | src/mxmlconvert.cpp:164-211 | an alternative rule, not the source's, with the same NONE, START and reset behaviour; START records the first note's value as the base |
| Tuplets.ScaledStepAddsNoteLength | src/mxmlconvert.cpp:164-211 | the alternative STOP compares the elapsed length with actualNotes notes of the first note's value |
| Tuplets.LimitInUnits | src/mxmlconvert.cpp:180-195 | the alternative's rescaled limit is actualNotes first-note lengths |
| Tuplets.SplitTripletScaled | src/mxmlconvert.cpp:164-211 | the alternative rule brackets eighth, two sixteenths, eighth as one triplet of eighths |
| Tuplets.TwoQuarterEighthTriplets | src/mxmlconvert.cpp:164-211 | two quarter-eighth triplets: the source's handler brackets each, the alternative rule runs them into one |
| Tuplets.ScaledAgreesOnEqualValues | src/mxmlconvert.cpp:164-211 | on equal face values, the alternative rule behaves like the source's handler |
| MxmlConvert.FaceValueToDuration | src/mxmlconvert.cpp:39-53 | face values 1..7 are 960 ticks halved per step, 8 is 7, anything else is 0 |
| MxmlConvert.DurationsHalve | src/mxmlconvert.cpp:39-53 | each face value lasts half the previous one, and a quarter is 240 |
| MxmlConvert.ApplyDotsAsWritten | src/mxmlconvert.cpp:539-542 | the source's dot loop computes DotsAsWritten |
| MxmlConvert.ApplyDots | src/mxmlconvert.cpp:539-542 | the corrected dot loop computes Dotted |
| MxmlConvert.SingleDotAgrees | src/mxmlconvert.cpp:539-542 | with at most one dot, the source and the correction agree |
| MxmlConvert.DoubleDotCompounds | src/mxmlconvert.cpp:539-542 | as written, a double-dotted quarter lasts 540 ticks, not 420 |
| MxmlConvert.DottedBelowDouble | src/mxmlconvert.cpp:539-542 | dots lengthen a note, but never to twice its value |
| MxmlConvert.DottedExact | src/mxmlconvert.cpp:539-542 | n dots make d(2^(n+1) - 1)/2^n |
| MxmlConvert.TupletFillsNormalNotes | src/mxmlconvert.cpp:544-547 | actualNotes scaled notes last as long as normalNotes plain ones |
| MxmlConvert.NoteDurationAsWritten | src/mxmlconvert.cpp:536-554 | as written, a grace note lasts zero ticks |
| MxmlConvert.NoteDuration | src/mxmlconvert.cpp:536-554 | a grace note lasts zero ticks |
| MxmlConvert.IsGrace | src/mxmlconvert.cpp:525-528 | a note is a grace note exactly when bits 4-5 of the first grace byte are 2 or 3 and bits 0 and 2 of the second are not 1 and 0 |
| MxmlConvert.RestDurationAsWritten | src/mxmlconvert.cpp:562-576 | an undotted rest outside a tuplet lasts its face value |
| MxmlConvert.RestDuration | src/mxmlconvert.cpp:562-576 | with the dots corrected, a rest outside a tuplet lasts at least its face value and less than twice it |
| MxmlConvert.PlainDurationBounds | src/mxmlconvert.cpp:536-576 | outside a tuplet, a note or rest lasts at least its face value, less than twice it, and exactly it without dots |
| MxmlConvert.DoubleDottedQuarterNote | src/mxmlconvert.cpp:536-554 | a double-dotted quarter note lasts 540 as written and 420 corrected |
| MxmlConvert.DurationNote | src/mxmlconvert.cpp:536-554 | durationNote, with the dots corrected, computes NoteDuration |
| MxmlConvert.DurationRest | src/mxmlconvert.cpp:562-576 | durationRest, with the dots corrected, computes RestDuration |
| MxmlConvert.ApplyTuplet | src/mxmlconvert.cpp:544-547 | the tuplet scaling step computes TupletScaled |
| MxmlConvert.IsFirstMeasureInAltEnd | src/mxmlconvert.cpp:303-316 | a measure opens an alternative ending exactly when it belongs to one and the run of equal ending bytes before it has ended |
| MxmlConvert.IsLastMeasureInAltEnd | src/mxmlconvert.cpp:323-336 | a measure closes an alternative ending exactly when it belongs to one and its run of equal ending bytes ends there |
| MxmlConvert.AltEndMirror | src/mxmlconvert.cpp:303-336 | first in an alternative ending is last in it when the measures are reversed |
| MxmlConvert.RunEnd | src/mxmlconvert.cpp:323-336 | the run of measures with the same alternative-ending byte ends where the byte changes |
| MxmlConvert.AltEndingCloses | src/mxmlconvert.cpp:303-336 | an ending that starts at a measure closes at the end of its run, with no start or close in between |
| MxmlConvert.LowNibbleClear | src/mxmlconvert.cpp:344-359 | the low nibble is clear exactly when none of bits 0..3 is set |
| MxmlConvert.PassesUpToContents | src/mxmlconvert.cpp:344-359 | the passes listed are exactly the set bits among the first k, in increasing order |
| MxmlConvert.EndingText | src/mxmlconvert.cpp:344-359 | n single-digit passes make a text of 3n - 2 characters |
| MxmlConvert.EndingTextParses | src/mxmlconvert.cpp:344-359 | the ending text parses back to its list of passes |
| MxmlConvert.EndingNumber | src/mxmlconvert.cpp:344-359 | an ending number is at most ten characters, "1, 2, 3, 4" |
| MxmlConvert.EndingNumberLists | src/mxmlconvert.cpp:344-359 | the ending number lists exactly the set bits 0..3 as passes 1..4, increasing, and is empty exactly when none is set |
| MxmlConvert.EndingNumberExample | src/mxmlconvert.cpp:344-359 | bits 0 and 2 make "1, 3" |
| MxmlConvert.RepeatAlternativeToEndingNumber | src/mxmlconvert.cpp:344-359 | the bit loop computes EndingNumber |
| MxmlConvert.MultiLine | src/mxmlconvert.cpp:426-439 | no strings give the empty text, and otherwise the text begins with the first string |
| MxmlConvert.CreateMultiLineString | src/mxmlconvert.cpp:426-439 | the joining loop computes MultiLine |
| MxmlConvert.MultiLineSplits | src/mxmlconvert.cpp:426-439 | splitting the result at newlines gives the first string, then every later non-empty one |
| MxmlConvert.MultiLineSkipsEmpty | src/mxmlconvert.cpp:426-439 | an empty middle string adds no line |
| MxmlConvert.VoicesOfContents | src/mxmlconvert.cpp:693-697 | the voices of a part are exactly those of its elements |
| MxmlConvert.Timing | src/mxmlconvert.cpp:737-794 | the measure's tick is never negative and every backup is positive |
| MxmlConvert.VoiceRunNonNegative | src/mxmlconvert.cpp:745-793 | a voice's tick never goes negative, and the previous element is a note |
| MxmlConvert.VoiceRunOnlyVoice | src/mxmlconvert.cpp:745-793 | a voice's timing depends only on its own elements |
| MxmlConvert.ChordIsSymmetric | src/mxmlconvert.cpp:663-669 | without a previous note there is no chord, and two notes are in a chord whichever comes first |
| MxmlConvert.ChordTakesFirstNote | src/mxmlconvert.cpp:762-772 | the notes of one chord advance the tick by the first note only |
| MxmlConvert.SingleVoiceNoBackup | src/mxmlconvert.cpp:737-794 | a single voice writes no backup and ends at its own tick |
| MxmlConvert.NoVoiceBelow | src/mxmlconvert.cpp:737-794 | voices from the start index onwards alone add no timing |
| MxmlConvert.CollectVoices | src/mxmlconvert.cpp:693-697 | the collecting loop computes VoicesOf |
| MxmlConvert.RunVoice | src/mxmlconvert.cpp:745-793 | the loop over one voice's elements computes VoiceRun |
| MxmlConvert.MeasureVoiceTiming | src/mxmlconvert.cpp:737-794 | the voice loop computes the backups and final tick of MeasureTiming |
| MxmlFile.FaceValueToDuration | src/mxmlfile.cpp:31-45 | face values 1..8 are 1920 ticks halved per step, anything else is 0 |
| MxmlFile.SameLengthAsConverter | src/mxmlfile.cpp:31-45 | the writer's durations are twice the converter's, except for the 128th |
| MxmlFile.WriteDuration | src/mxmlfile.cpp:322-330 | the duration written for a note or rest computes Duration |
| MxmlFile.GraceNoteKeepsLength | src/mxmlfile.cpp:309-351 | the writer, unlike the converter, gives grace notes their full length |
| MxmlFile.UpperBoundSplits | src/mxmlfile.cpp:283-286 | the insertion point splits the ordered elements into keys at most x and keys above x |
| MxmlFile.InsertIndexes | src/mxmlfile.cpp:283-286 | insertion puts the element at the insertion point and shifts the rest |
| MxmlFile.InsertKeepsOrder | src/mxmlfile.cpp:283-286 | inserting a later element keeps the multimap order |
| MxmlFile.InsertContents | src/mxmlfile.cpp:283-286 | insertion adds exactly the element |
| MxmlFile.StableOrderContents | src/mxmlfile.cpp:283-286 | the multimap holds exactly the elements of the first staff |
| MxmlFile.StableOrderBounded | src/mxmlfile.cpp:283-286 | the multimap refers only to elements that exist |
| MxmlFile.StableOrderSorted | src/mxmlfile.cpp:283-286 | the multimap is ordered by horizontal offset, equal offsets in file order |
| MxmlFile.InOrderUnique | src/mxmlfile.cpp:283-286 | only one order of the same elements is by offset then file order |
| MxmlFile.MultimapOrder | src/mxmlfile.cpp:283-286 | the insertion loop computes StableOrder |
| MxmlFile.FindUpperBound | src/mxmlfile.cpp:283-286 | the search loop computes UpperBound |
| MxmlFile.Render | src/mxmlfile.cpp:287-295 | at most one output per element, tuplet marks from the source's handler |
| MxmlFile.NotesAndRests | src/mxmlfile.cpp:287-295 | the positions kept are notes or rests of the measure |
| MxmlFile.NotesAndRestsSelects | src/mxmlfile.cpp:287-295 | exactly the notes and rests of the order are kept, and a sorted order stays sorted |
| MxmlFile.Marks | src/mxmlfile.cpp:89-136 | one tuplet mark per note or rest handed to the handler |
| MxmlFile.RenderWritesNotesAndRests | src/mxmlfile.cpp:287-295 | every note and rest is written once, in order, with its pitch and duration, and its tuplet mark is the handler's over the notes and rests alone |
| MxmlFile.WrittenElems | src/mxmlfile.cpp:281-296 | writeMeasure hands only notes and rests of the measure to writeNote and writeRest |
| MxmlFile.MeasureWritesFirstStaff | src/mxmlfile.cpp:281-296 | a measure writes each note and rest of its first staff once, by offset with ties in file order, with its pitch and duration |
| MxmlFile.NoTupletNoBracket | src/mxmlfile.cpp:287-295 | without tuplet bytes no output carries a tuplet mark |
| MxmlFile.WriteMeasure | src/mxmlfile.cpp:265-306 | writeMeasure, with the source's tuplet handler, writes MeasureOutput: the notes and rests of the first staff, by offset, with durations and tuplet marks |

## Left out

- The XML text itself is not modelled: attributes, key changes, clefs, barlines, lyrics, chord symbols, directions as written elements, and the `<measure>` framing. The writers are modelled as the sequence of notes and rests they write, with durations and tuplet marks.
- File I/O is not modelled, and neither are the page block or the debug output. The decoder works on the file's bytes held in memory.
- The ornament type accessor and `EncLineStaffData::instrumentIndex()` are not part of this model. The decoder, the staff count and the spanner pass take them as parameters (`EncTypes.Accessors`).
- `elemType::UNKNOWN1` and `UNKNOWN2` are used by the decoder but not declared in encfile.h. They are taken to be 10 and 11, after NOTE; nibbles 12..15 stop the decoder.
- The program ends the process on an unsupported element type, a missing LINE block or an out-of-range spanner end. The model returns a `DecodeError` instead.
- Bytes.Signed: states the signed reinterpretation as "the value, or the value minus the modulus" rather than as a bit cast.
- Bytes.Int32: stated as congruence modulo 2^32 in the 32-bit range; the C++ overflow in `int` is taken to wrap.
- EncMeasures.ReadMeasure: follows the corrected element loop of the "Findings" table. The loop as written is `SourceRun`, which agrees with it wherever it finishes.
- MxmlConvert.DurationNote, MxmlConvert.DurationRest and MxmlFile.WriteDuration: compute the corrected dot length of the "Findings" table, not the compounding one.
- MxmlConvert.MeasureVoiceTiming and MxmlFile.WriteMeasure: use the corrected dot durations of the "Findings" table.
- Tuplets.TupletStep: models the handler as written, and the model does not claim its brackets are the intended ones. A tuplet byte gives only actualNotes and normalNotes, not the bracket's base value, so mixed face values are ambiguous: eighth, two sixteenths, eighth in 3:2 comes out as two triplets of sixteenths (`SplitTripletStopsEarly`). `ScaledStep` is an alternative rule that brackets that rhythm as one triplet of eighths but runs two quarter-eighth triplets into one bracket (`TwoQuarterEighthTriplets`), so neither rule is right on every rhythm.
- MxmlConvert.Timing: the backups are stated positive and the tick non-negative, not their exact values; the exact values are MeasureTiming, which the method computes.
- NoteConnectors.NoteConnector.constructor: links slurs and wedges in measure order, as the source does. The resulting maps are related to the measures by `LinksTyped` and `LinksPaired`, not by naming every handle.
- The MusicXML writer's other functions (part list, attributes and so on) are outside this model.

## Findings

| source | as written | input that shows it | evidently intended | confidence | as-written member | corrected member |
|---|---|---|---|---|---|---|
| src/encfile.cpp:381-433 | the element loop runs until it reads a 0xFFFF tick, and a read past the end yields 0, which is a NONE element of size 0 | a MEAS block cut off before its sentinel: from then on every pass reads tick 0 and type 0 and never ends | stop when the tick itself cannot be read | not executed | EncMeasures.TruncatedMeasureNeverEnds | EncMeasures.StreamAgreesWithSource |
| src/mxmlconvert.cpp:539-542 | each dot multiplies the whole duration by 3/2, so dots compound; src/mxmlfile.cpp:322-326 and 387-391 do the same | a double-dotted quarter note: 240 becomes 540 ticks instead of 420 | each dot adds half of the previous addition, d(2^(n+1) - 1)/2^n | not executed | MxmlConvert.DoubleDottedQuarterNote | MxmlConvert.DottedExact |
