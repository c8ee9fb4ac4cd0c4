/** The MusicXML converter's per-measure arithmetic: note and rest durations
  * in divisions of 240 per quarter, alternative endings, ending numbers, the
  * joining of title lines, and the time each voice of a measure takes. */
module MxmlConvert {
  import opened Bytes
  import opened Wrappers
  import opened EncTypes
  import opened Tuplets

  /** faceValue2duration: a whole note lasts 960, each further face value
    * half as long, the 128th note truncated to 7; codes outside 1 to 8 last
    * nothing. */
  function FaceValueToDuration(faceValue: int): (d: nat)
    ensures 1 <= faceValue <= 7 ==> d * Pow2(faceValue - 1) == 960
    ensures faceValue == 8 ==> d == 7
    ensures !(1 <= faceValue <= 8) ==> d == 0
  {
    assert Pow2(6) == 64 && Pow2(5) == 32 && Pow2(4) == 16 && Pow2(3) == 8;
    match faceValue
    case 1 => 960
    case 2 => 480
    case 3 => 240
    case 4 => 120
    case 5 => 60
    case 6 => 30
    case 7 => 15
    case 8 => 7
    case _ => 0
  }

  /** The converter writes 240 divisions per quarter, and a quarter note
    * (face value 3) lasts exactly that; each face value lasts half the one
    * before, down to the 64th. */
  lemma DurationsHalve(faceValue: int)
    requires 1 <= faceValue < 7
    ensures FaceValueToDuration(3) == 240
    ensures FaceValueToDuration(faceValue + 1) * 2 == FaceValueToDuration(faceValue)
  {
  }

  /** The dot loop as written: each dot multiplies the running duration by 3
    * and divides it by 2. */
  function DotsAsWritten(d: nat, dots: nat): nat
    decreases dots
  {
    if dots == 0 then d else DotsAsWritten(d * 3 / 2, dots - 1)
  }

  method ApplyDotsAsWritten(d: nat, dots: nat) returns (r: nat)
    ensures r == DotsAsWritten(d, dots)
  {
    r := d;
    var i := 0;
    while i < dots
      invariant 0 <= i <= dots
      invariant DotsAsWritten(r, dots - i) == DotsAsWritten(d, dots)
    {
      r := r * 3;
      r := r / 2;
      i := i + 1;
    }
  }

  /** The intended dotted length: each dot adds half of what the previous dot
    * (or the note itself) added. */
  function Dotted(d: nat, dots: nat): nat
  {
    if dots == 0 then d else d + Dotted(d / 2, dots - 1)
  }

  method ApplyDots(d: nat, dots: nat) returns (r: nat)
    ensures r == Dotted(d, dots)
  {
    r := d;
    var add: nat := d;
    var i := 0;
    while i < dots
      invariant 0 <= i <= dots && add <= r
      invariant r - add + Dotted(add, dots - i) == Dotted(d, dots)
    {
      add := add / 2;
      r := r + add;
      i := i + 1;
    }
  }

  /** With at most one dot both agree. */
  lemma SingleDotAgrees(d: nat, dots: nat)
    requires dots <= 1
    ensures DotsAsWritten(d, dots) == Dotted(d, dots)
  {
  }

  /** A double-dotted quarter: as written it lasts 540 (two and a quarter
    * quarters) instead of 420 (one and three quarters); a triple-dotted one
    * lasts 810 instead of 450, longer than a half note. */
  lemma DoubleDotCompounds()
    ensures DotsAsWritten(FaceValueToDuration(3), 2) == 540
    ensures Dotted(FaceValueToDuration(3), 2) == 420
    ensures DotsAsWritten(FaceValueToDuration(3), 3) == 810
    ensures Dotted(FaceValueToDuration(3), 3) == 450
  {
  }

  /** Dots never make a note as long as twice its face value. */
  lemma {:induction false} DottedBelowDouble(d: nat, dots: nat)
    ensures d <= Dotted(d, dots)
    ensures d == 0 ==> Dotted(d, dots) == 0
    ensures d > 0 ==> Dotted(d, dots) < 2 * d
  {
    if dots > 0 {
      DottedBelowDouble(d / 2, dots - 1);
    }
  }

  /** When the length halves evenly, n dots multiply it by (2^(n+1) - 1) / 2^n. */
  lemma {:induction false} DottedExact(d: nat, dots: nat)
    requires d % Pow2(dots) == 0
    ensures Dotted(d, dots) * Pow2(dots) == d * (2 * Pow2(dots) - 1)
  {
    if dots > 0 {
      var p := Pow2(dots - 1);
      HalveEvenly(d, p);
      DottedExact(d / 2, dots - 1);
      DottedStep(d, d / 2, Dotted(d / 2, dots - 1), p);
    }
  }

  lemma HalveEvenly(d: nat, p: nat)
    requires p > 0 && d % (2 * p) == 0
    ensures d == 2 * (d / 2) && (d / 2) % p == 0
  {
    var k := d / (2 * p);
    assert d == (2 * p) * k + d % (2 * p);
    assert d == 2 * (p * k);
    CancelFactor(2, p * k);
    CancelFactor(p, k);
    assert p * k == p * ((p * k) / p) + (p * k) % p;
  }

  lemma DottedStep(d: int, h: int, rest: int, p: int)
    requires d == 2 * h && rest * p == h * (2 * p - 1)
    ensures (d + rest) * (2 * p) == d * (2 * (2 * p) - 1)
  {
    calc {
      (d + rest) * (2 * p);
      d * (2 * p) + 2 * (rest * p);
      d * (2 * p) + 2 * (h * (2 * p - 1));
      d * (2 * p) + d * (2 * p - 1);
      d * (2 * (2 * p) - 1);
    }
  }

  /** A tuplet scales a duration by normalNotes / actualNotes, truncating. */
  function TupletScaled(d: nat, actualNotes: int, normalNotes: int): nat
  {
    if actualNotes > 0 && normalNotes > 0 then d * normalNotes / actualNotes else d
  }

  /** actualNotes notes of a tuplet last as long as normalNotes plain ones,
    * when the face value divides evenly. */
  lemma TupletFillsNormalNotes(d: nat, actualNotes: int, normalNotes: int)
    requires actualNotes > 0 && normalNotes > 0 && d % actualNotes == 0
    ensures actualNotes * TupletScaled(d, actualNotes, normalNotes) == normalNotes * d
  {
    var k := d / actualNotes;
    assert d == actualNotes * k;
    assert d * normalNotes == actualNotes * (k * normalNotes);
    CancelFactor(actualNotes, k * normalNotes);
  }

  lemma CancelFactor(a: int, m: int)
    requires a > 0
    ensures (a * m) / a == m
  {
    var q, r := (a * m) / a, (a * m) % a;
    assert a * m == a * q + r && 0 <= r < a;
    assert a * (m - q) == r;
    if m - q >= 1 {
      MulAtLeast(a, m - q);
    } else if m - q <= -1 {
      MulAtLeast(a, q - m);
    }
  }

  lemma MulAtLeast(a: int, x: int)
    requires a > 0 && x >= 1
    ensures a * x >= a
  {
  }

  /** isGrace: a note is a grace note exactly when bit 5 of its first grace
    * byte is set and bits 0 and 2 of the second are not 1 and 0. */
  predicate IsGrace(note: Elem)
    requires note.IsNote()
    ensures IsGrace(note) <==> note.body.grace1 / 16 % 4 >= 2 && note.body.grace2 % 2 + 4 * (note.body.grace2 / 4 % 2) != 1
  {
    GraceTable(note.body.grace1, note.body.grace2);
    GraceOf(note.body.grace1, note.body.grace2) != NormalNote
  }

  /** durationNote as written: face value, dots, tuplet, and nothing for a
    * grace note. */
  function NoteDurationAsWritten(note: Elem): (d: nat)
    requires note.IsNote()
    ensures IsGrace(note) ==> d == 0
  {
    var b := note.body;
    var d := TupletScaled(DotsAsWritten(FaceValueToDuration(b.faceValue % 16), b.dotControl % 4),
                          ActualNotes(b.tuplet), NormalNotes(b.tuplet));
    if IsGrace(note) then 0 else d
  }

  /** durationNote with the intended dot lengths. */
  function NoteDuration(note: Elem): (d: nat)
    requires note.IsNote()
    ensures IsGrace(note) ==> d == 0
  {
    var b := note.body;
    var d := TupletScaled(Dotted(FaceValueToDuration(b.faceValue % 16), b.dotControl % 4),
                          ActualNotes(b.tuplet), NormalNotes(b.tuplet));
    if IsGrace(note) then 0 else d
  }

  /** durationRest: a rest is never a grace note; outside a tuplet and
    * undotted it lasts its face value. */
  function RestDurationAsWritten(rest: Elem): (d: nat)
    requires rest.IsRest()
    ensures ActualNotes(rest.body.tuplet) == 0 && rest.body.dotControl % 4 == 0 ==> d == FaceValueToDuration(rest.body.faceValue % 16)
  {
    var b := rest.body;
    TupletScaled(DotsAsWritten(FaceValueToDuration(b.faceValue % 16), b.dotControl % 4),
                 ActualNotes(b.tuplet), NormalNotes(b.tuplet))
  }

  /** durationRest with the intended dot lengths: outside a tuplet a rest
    * lasts at least its face value and, dotted, less than twice it. */
  function RestDuration(rest: Elem): (d: nat)
    requires rest.IsRest()
    ensures var f := FaceValueToDuration(rest.body.faceValue % 16);
            ActualNotes(rest.body.tuplet) == 0 ==> f <= d && (f > 0 ==> d < 2 * f)
  {
    var b := rest.body;
    DottedBelowDouble(FaceValueToDuration(b.faceValue % 16), b.dotControl % 4);
    TupletScaled(Dotted(FaceValueToDuration(b.faceValue % 16), b.dotControl % 4),
                 ActualNotes(b.tuplet), NormalNotes(b.tuplet))
  }

  /** A plain note or rest outside a tuplet lasts at least its face value and
    * less than twice it; undotted, exactly its face value. */
  lemma PlainDurationBounds(e: Elem)
    requires e.IsNote() || e.IsRest()
    requires e.IsNote() ==> !IsGrace(e)
    requires ActualNotes(e.body.tuplet) == 0
    ensures var d := if e.IsNote() then NoteDuration(e) else RestDuration(e);
            var f := FaceValueToDuration(e.body.faceValue % 16);
            f <= d && (f > 0 ==> d < 2 * f) && (e.body.dotControl % 4 == 0 ==> d == f)
  {
    DottedBelowDouble(FaceValueToDuration(e.body.faceValue % 16), e.body.dotControl % 4);
  }

  /** A double-dotted quarter note outside a tuplet. */
  lemma DoubleDottedQuarterNote()
    ensures var n := Elem(0, ELEM_NOTE, 0, 0, 0, 0, NoteBody(3, 0, 0, 0, 0, 2, 60, 0, 0, 0, 0, 0, 0));
            NoteDurationAsWritten(n) == 540 && NoteDuration(n) == 420
  {
    var n := Elem(0, ELEM_NOTE, 0, 0, 0, 0, NoteBody(3, 0, 0, 0, 0, 2, 60, 0, 0, 0, 0, 0, 0));
    assert !IsGrace(n);
    assert ActualNotes(0) == 0;
    DoubleDotCompounds();
  }

  method DurationNote(note: Elem) returns (d: nat)
    requires note.IsNote()
    ensures d == NoteDuration(note)
  {
    var b := note.body;
    d := ApplyDots(FaceValueToDuration(b.faceValue % 16), b.dotControl % 4);
    d := ApplyTuplet(d, ActualNotes(b.tuplet), NormalNotes(b.tuplet));
    if IsGrace(note) {
      return 0;
    }
  }

  method DurationRest(rest: Elem) returns (d: nat)
    requires rest.IsRest()
    ensures d == RestDuration(rest)
  {
    var b := rest.body;
    d := ApplyDots(FaceValueToDuration(b.faceValue % 16), b.dotControl % 4);
    d := ApplyTuplet(d, ActualNotes(b.tuplet), NormalNotes(b.tuplet));
  }

  /** The tuplet step both share: times normalNotes, then divided by actualNotes. */
  method ApplyTuplet(d: nat, actualNotes: int, normalNotes: int) returns (r: nat)
    ensures r == TupletScaled(d, actualNotes, normalNotes)
  {
    r := d;
    if actualNotes > 0 && normalNotes > 0 {
      ProductNonNegative(d, normalNotes);
      r := r * normalNotes;
      r := r / actualNotes;
    }
  }

  lemma ProductNonNegative(x: nat, y: nat)
    ensures x * y >= 0
  {
  }

  /** isFirstMeasureInAltEnd: the measure belongs to an alternative ending
    * and the measure before it does not belong to the same one. */
  predicate IsFirstMeasureInAltEnd(ms: seq<Measure>, i: nat)
    requires i < |ms|
    ensures IsFirstMeasureInAltEnd(ms, i) <==> ms[i].repeatAlternative != 0 && (i == 0 || RunEnd(ms, i - 1) == i - 1)
  {
    var alt := ms[i].repeatAlternative;
    alt != 0 && (i == 0 || ms[i - 1].repeatAlternative != alt)
  }

  /** isLastMeasureInAltEnd: the measure belongs to an alternative ending
    * and the measure after it does not belong to the same one. */
  predicate IsLastMeasureInAltEnd(ms: seq<Measure>, i: nat)
    requires i < |ms|
    ensures IsLastMeasureInAltEnd(ms, i) <==> ms[i].repeatAlternative != 0 && RunEnd(ms, i) == i
  {
    var alt := ms[i].repeatAlternative;
    alt != 0 && (i == |ms| - 1 || ms[i + 1].repeatAlternative != alt)
  }

  function Reversed(ms: seq<Measure>): (r: seq<Measure>)
    ensures |r| == |ms| && forall i :: 0 <= i < |ms| ==> r[i] == ms[|ms| - 1 - i]
  {
    if ms == [] then [] else Reversed(ms[1..]) + [ms[0]]
  }

  /** The two tests mirror each other: read backwards, a first measure is a
    * last one. */
  lemma AltEndMirror(ms: seq<Measure>, i: nat)
    requires i < |ms|
    ensures IsFirstMeasureInAltEnd(ms, i) == IsLastMeasureInAltEnd(Reversed(ms), |ms| - 1 - i)
  {
  }

  /** The last index of the run of measures with the same repeatAlternative
    * that contains measure i. */
  function RunEnd(ms: seq<Measure>, i: nat): (j: nat)
    requires i < |ms|
    ensures i <= j < |ms|
    ensures forall k :: i <= k <= j ==> ms[k].repeatAlternative == ms[i].repeatAlternative
    ensures j == |ms| - 1 || ms[j + 1].repeatAlternative != ms[i].repeatAlternative
    decreases |ms| - i
  {
    if i == |ms| - 1 || ms[i + 1].repeatAlternative != ms[i].repeatAlternative then i
    else RunEnd(ms, i + 1)
  }

  /** Every alternative ending that opens also closes: from a first measure,
    * the measures up to the end of its run are neither first nor last, and
    * the run's final measure is a last one. */
  lemma AltEndingCloses(ms: seq<Measure>, i: nat)
    requires i < |ms| && IsFirstMeasureInAltEnd(ms, i)
    ensures IsLastMeasureInAltEnd(ms, RunEnd(ms, i))
    ensures forall k :: i < k <= RunEnd(ms, i) ==> !IsFirstMeasureInAltEnd(ms, k)
    ensures forall k :: i <= k < RunEnd(ms, i) ==> !IsLastMeasureInAltEnd(ms, k)
  {
    var j := RunEnd(ms, i);
    forall k | i < k <= j
      ensures !IsFirstMeasureInAltEnd(ms, k)
    {
      assert ms[k - 1].repeatAlternative == ms[k].repeatAlternative;
    }
    forall k | i <= k < j
      ensures !IsLastMeasureInAltEnd(ms, k)
    {
      assert ms[k + 1].repeatAlternative == ms[k].repeatAlternative;
    }
  }

  /** Whether bit `i` of a byte is set. */
  predicate Bit(b: byte, i: nat)
    requires i < 8
  {
    (b as bv8) & Mask(i) != 0
  }

  /** The single-bit mask of bit i. */
  function Mask(i: nat): bv8
    requires i < 8
  {
    (1 as bv8) << i
  }

  lemma MaskShift(k: nat)
    requires k < 7
    ensures Mask(k) << 1 == Mask(k + 1)
  {
    if k == 0 {} else if k == 1 {} else if k == 2 {} else if k == 3 {}
    else if k == 4 {} else if k == 5 {} else {}
  }

  /** The four low bits of a byte are clear exactly when none of bits 0 to 3 is set. */
  lemma LowNibbleClear(b: byte)
    ensures (b as bv8) & 0x0F == 0 <==> !Bit(b, 0) && !Bit(b, 1) && !Bit(b, 2) && !Bit(b, 3)
  {
    assert Mask(0) == 1 && Mask(1) == 2 && Mask(2) == 4 && Mask(3) == 8;
    LowBits(b as bv8);
  }

  lemma LowBits(v: bv8)
    ensures (v & 0x0F == 0) <==> (v & 1 == 0 && v & 2 == 0 && v & 4 == 0 && v & 8 == 0)
  {
  }

  /** The passes 1 to k whose bit repeatAlternative has set, in order. */
  function PassesUpTo(repeatAlternative: byte, k: nat): (ps: seq<int>)
    requires k <= 8
    ensures |ps| <= k
  {
    if k == 0 then []
    else PassesUpTo(repeatAlternative, k - 1) + (if Bit(repeatAlternative, k - 1) then [k] else [])
  }

  /** The passes listed are exactly those whose bit is set, in increasing order. */
  lemma {:induction false} PassesUpToContents(repeatAlternative: byte, k: nat)
    requires k <= 8
    ensures forall a :: 0 <= a < |PassesUpTo(repeatAlternative, k)| ==> 1 <= PassesUpTo(repeatAlternative, k)[a] <= k
    ensures forall x :: x in PassesUpTo(repeatAlternative, k) <==> 1 <= x <= k && Bit(repeatAlternative, x - 1)
    ensures forall a, b :: 0 <= a < b < |PassesUpTo(repeatAlternative, k)| ==>
              PassesUpTo(repeatAlternative, k)[a] < PassesUpTo(repeatAlternative, k)[b]
  {
    if k > 0 {
      PassesUpToContents(repeatAlternative, k - 1);
    }
  }

  const COMMA := 0x2C
  const SPACE := 0x20
  const DIGIT_ZERO := 0x30

  /** The digits of single-digit passes, separated by ", ". */
  function EndingText(ps: seq<int>): (t: Text)
    ensures |ps| > 0 ==> |t| == 3 * |ps| - 2
    ensures |ps| == 0 ==> t == []
  {
    if |ps| == 0 then []
    else if |ps| == 1 then [DIGIT_ZERO + ps[0]]
    else EndingText(ps[..|ps| - 1]) + [COMMA, SPACE, DIGIT_ZERO + ps[|ps| - 1]]
  }

  lemma EndingTextAppend(ps: seq<int>, x: int)
    ensures EndingText(ps + [x]) ==
            if ps == [] then [DIGIT_ZERO + x] else EndingText(ps) + [COMMA, SPACE, DIGIT_ZERO + x]
  {
    assert (ps + [x])[..|ps|] == ps;
  }

  /** The passes an ending number lists, read back from its text. */
  function ParseEnding(t: Text): seq<int>
    decreases |t|
  {
    if |t| == 0 then []
    else if |t| < 4 then [t[|t| - 1] - DIGIT_ZERO]
    else ParseEnding(t[..|t| - 3]) + [t[|t| - 1] - DIGIT_ZERO]
  }

  lemma {:induction false} EndingTextParses(ps: seq<int>)
    ensures ParseEnding(EndingText(ps)) == ps
  {
    if |ps| > 1 {
      var t := EndingText(ps);
      EndingTextParses(ps[..|ps| - 1]);
      assert t[..|t| - 3] == EndingText(ps[..|ps| - 1]);
      assert ps == ps[..|ps| - 1] + [ps[|ps| - 1]];
    }
  }

  /** repeatAlternative2EndingNumber as a value: the passes 1 to 4, at most
    * "1, 2, 3, 4". */
  function EndingNumber(repeatAlternative: byte): (t: Text)
    ensures |t| <= 10
  {
    EndingText(PassesUpTo(repeatAlternative, 4))
  }

  /** The ending number lists, in increasing order, exactly the passes
    * among 1 to 4 whose bit is set; none set gives the empty text. */
  lemma EndingNumberLists(repeatAlternative: byte)
    ensures var ps := ParseEnding(EndingNumber(repeatAlternative));
            (forall x :: x in ps <==> 1 <= x <= 4 && Bit(repeatAlternative, x - 1)) &&
            (forall a, b :: 0 <= a < b < |ps| ==> ps[a] < ps[b])
    ensures EndingNumber(repeatAlternative) == [] <==> (repeatAlternative as bv8) & 0x0F == 0
  {
    var ps := PassesUpTo(repeatAlternative, 4);
    PassesUpToContents(repeatAlternative, 4);
    EndingTextParses(ps);
    assert ParseEnding(EndingNumber(repeatAlternative)) == ps;
    LowNibbleClear(repeatAlternative);
    if (repeatAlternative as bv8) & 0x0F != 0 {
      var x := if Bit(repeatAlternative, 0) then 1 else if Bit(repeatAlternative, 1) then 2
               else if Bit(repeatAlternative, 2) then 3 else 4;
      assert x in ps;
    } else if ps != [] {
      HeadIsElement(ps);
      assert false;
    }
  }

  lemma HeadIsElement(ps: seq<int>)
    requires ps != []
    ensures ps[0] in ps
  {
  }

  /** Passes 1 and 3 give "1, 3". */
  lemma EndingNumberExample()
    ensures EndingNumber(5) == [0x31, COMMA, SPACE, 0x33]
  {
    assert PassesUpTo(5, 4) == [1, 3];
  }

  method RepeatAlternativeToEndingNumber(repeatAlternative: byte) returns (res: Text)
    ensures res == EndingNumber(repeatAlternative)
  {
    var mask: bv8 := 1;
    res := [];
    for i := 1 to 5
      invariant mask == Mask(i - 1)
      invariant res == EndingText(PassesUpTo(repeatAlternative, i - 1))
    {
      ghost var ps := PassesUpTo(repeatAlternative, i - 1);
      if (repeatAlternative as bv8) & mask != 0 {
        assert Bit(repeatAlternative, i - 1);
        assert PassesUpTo(repeatAlternative, i) == ps + [i];
        EndingTextAppend(ps, i);
        if res == [] {
          res := [DIGIT_ZERO + i];
        } else {
          res := res + [COMMA, SPACE, DIGIT_ZERO + i];
        }
      } else {
        assert PassesUpTo(repeatAlternative, i) == ps;
      }
      MaskShift(i - 1);
      mask := mask << 1;
    }
  }

  /** notesAreInChord: a previous note exists and stands at the same tick
    * and the same horizontal offset. */
  predicate NotesAreInChord(prev: Option<Elem>, cur: Elem)
  {
    prev.Some? && prev.value.tick == cur.tick && prev.value.xoffset == cur.xoffset
  }

  /** Without a previous note there is no chord, and two notes are in a chord
    * whichever of them comes first. */
  lemma ChordIsSymmetric(a: Elem, b: Elem)
    ensures !NotesAreInChord(None, b)
    ensures NotesAreInChord(Some(a), b) <==> NotesAreInChord(Some(b), a)
  {
  }

  const NEWLINE := 0x0A

  /** createMultiLineString as a value: the first string, then every later
    * non-empty one on a line of its own. */
  function MultiLine(strs: seq<Text>): (t: Text)
    ensures |strs| == 0 ==> t == []
    ensures |strs| > 0 ==> strs[0] <= t
  {
    if |strs| == 0 then []
    else if |strs| == 1 then strs[0]
    else
      var last := strs[|strs| - 1];
      MultiLine(strs[..|strs| - 1]) + (if last == [] then [] else [NEWLINE] + last)
  }

  method CreateMultiLineString(strs: seq<Text>) returns (res: Text)
    ensures res == MultiLine(strs)
  {
    res := [];
    if |strs| > 0 {
      res := res + strs[0];
      for i := 1 to |strs|
        invariant res == MultiLine(strs[..i])
      {
        assert strs[..i + 1][..i] == strs[..i];
        if strs[i] != [] {
          res := res + [NEWLINE];
          res := res + strs[i];
        }
      }
      assert strs[..|strs|] == strs;
    }
  }

  predicate NoNewline(t: Text)
  {
    forall k :: 0 <= k < |t| ==> t[k] != NEWLINE
  }

  /** The lines of a text: the pieces between newlines. */
  function Lines(t: Text): (ls: seq<Text>)
    ensures |ls| >= 1
  {
    if |t| == 0 then [[]]
    else
      var init := Lines(t[..|t| - 1]);
      if t[|t| - 1] == NEWLINE then init + [[]]
      else init[..|init| - 1] + [init[|init| - 1] + [t[|t| - 1]]]
  }

  /** Appending text without a newline extends the last line. */
  lemma {:induction false} LinesExtend(a: Text, b: Text)
    requires NoNewline(b)
    ensures var la := Lines(a);
            Lines(a + b) == la[..|la| - 1] + [la[|la| - 1] + b]
    decreases |b|
  {
    if |b| > 0 {
      var b' := b[..|b| - 1];
      LinesExtend(a, b');
      LinesExtendStep(a, b);
    } else {
      LinesExtendNothing(a, b);
    }
  }

  lemma LinesExtendNothing(a: Text, b: Text)
    requires b == []
    ensures var la := Lines(a);
            Lines(a + b) == la[..|la| - 1] + [la[|la| - 1] + b]
  {
    assert a + b == a;
    var la := Lines(a);
    assert la[|la| - 1] + b == la[|la| - 1];
    assert la[..|la| - 1] + [la[|la| - 1]] == la;
  }

  /** One more character that is not a newline extends the last line by it. */
  lemma {:induction false} LinesExtendStep(a: Text, b: Text)
    requires |b| > 0 && b[|b| - 1] != NEWLINE
    requires var la := Lines(a);
             Lines(a + b[..|b| - 1]) == la[..|la| - 1] + [la[|la| - 1] + b[..|b| - 1]]
    ensures var la := Lines(a);
            Lines(a + b) == la[..|la| - 1] + [la[|la| - 1] + b]
  {
    var b', c := b[..|b| - 1], b[|b| - 1];
    SnocSplit(a, b);
    LinesSnoc(a + b);
    var la := Lines(a);
    ExtendLast(la, Lines(a + b'), b', c);
    AppendLast(la[|la| - 1], b);
  }

  /** Dropping the last character of `a + b`, for a non-empty `b`. */
  lemma SnocSplit(a: Text, b: Text)
    requires |b| > 0
    ensures (a + b)[..|a + b| - 1] == a + b[..|b| - 1] && (a + b)[|a + b| - 1] == b[|b| - 1]
  {
  }

  /** A last character that is not a newline joins the last line. */
  lemma LinesSnoc(t: Text)
    requires |t| > 0 && t[|t| - 1] != NEWLINE
    ensures var init := Lines(t[..|t| - 1]);
            Lines(t) == init[..|init| - 1] + [init[|init| - 1] + [t[|t| - 1]]]
  {
  }

  lemma ExtendLast(la: seq<Text>, prev: seq<Text>, b: Text, c: int)
    requires |la| > 0 && prev == la[..|la| - 1] + [la[|la| - 1] + b]
    ensures prev[..|prev| - 1] + [prev[|prev| - 1] + [c]] == la[..|la| - 1] + [la[|la| - 1] + b + [c]]
  {
    assert prev[..|prev| - 1] == la[..|la| - 1];
  }

  lemma AppendLast(x: Text, b: Text)
    requires |b| > 0
    ensures x + b[..|b| - 1] + [b[|b| - 1]] == x + b
  {
    assert b[..|b| - 1] + [b[|b| - 1]] == b;
    assert x + b[..|b| - 1] + [b[|b| - 1]] == x + (b[..|b| - 1] + [b[|b| - 1]]);
  }

  /** A newline followed by text without one opens a last line holding it. */
  lemma LinesAfterNewline(m: Text, last: Text)
    requires NoNewline(last)
    ensures Lines(m + ([NEWLINE] + last)) == Lines(m) + [last]
  {
    assert m + ([NEWLINE] + last) == (m + [NEWLINE]) + last;
    assert (m + [NEWLINE])[..|m + [NEWLINE]| - 1] == m;
    LinesExtend(m + [NEWLINE], last);
    var lm := Lines(m + [NEWLINE]);
    assert lm[..|lm| - 1] == Lines(m) && lm[|lm| - 1] == [];
    assert [] + last == last;
  }

  /** The non-empty strings of a sequence. */
  function NonEmpty(strs: seq<Text>): seq<Text>
  {
    if |strs| == 0 then []
    else NonEmpty(strs[..|strs| - 1]) + (if strs[|strs| - 1] == [] then [] else [strs[|strs| - 1]])
  }

  /** Splitting the joined text at its newlines gives back the first string
    * and the later non-empty ones, provided no string holds a newline. */
  lemma {:induction false} MultiLineSplits(strs: seq<Text>)
    requires |strs| >= 1
    requires forall i :: 0 <= i < |strs| ==> NoNewline(strs[i])
    ensures Lines(MultiLine(strs)) == [strs[0]] + NonEmpty(strs[1..])
  {
    if |strs| == 1 {
      SingleLine(strs);
    } else {
      var init := strs[..|strs| - 1];
      assert forall i :: 0 <= i < |init| ==> init[i] == strs[i];
      MultiLineSplits(init);
      MultiLineSplitsStep(strs);
    }
  }

  /** A single string without a newline is a single line. */
  lemma SingleLine(strs: seq<Text>)
    requires |strs| == 1 && NoNewline(strs[0])
    ensures Lines(MultiLine(strs)) == [strs[0]] + NonEmpty(strs[1..])
  {
    LinesExtend([], strs[0]);
    assert [] + strs[0] == strs[0];
    assert strs[1..] == [];
  }

  /** One more string keeps the split: it is a line of its own when it is
    * not empty and adds nothing otherwise. */
  lemma MultiLineSplitsStep(strs: seq<Text>)
    requires |strs| >= 2 && NoNewline(strs[|strs| - 1])
    requires var init := strs[..|strs| - 1];
             Lines(MultiLine(init)) == [init[0]] + NonEmpty(init[1..])
    ensures Lines(MultiLine(strs)) == [strs[0]] + NonEmpty(strs[1..])
  {
    var init := strs[..|strs| - 1];
    var last := strs[|strs| - 1];
    assert init[0] == strs[0];
    var rest := strs[1..];
    assert rest[..|rest| - 1] == init[1..];
    assert rest[|rest| - 1] == last;
    assert NonEmpty(rest) == NonEmpty(init[1..]) + (if last == [] then [] else [last]);
    var m := MultiLine(init);
    if last == [] {
      assert MultiLine(strs) == m + [];
      assert m + [] == m;
    } else {
      assert MultiLine(strs) == m + ([NEWLINE] + last);
      LinesAfterNewline(m, last);
      assert [strs[0]] + NonEmpty(init[1..]) + [last] == [strs[0]] + (NonEmpty(init[1..]) + [last]);
    }
  }

  /** An empty string between two others leaves no empty line. */
  lemma MultiLineSkipsEmpty(a: Text, b: Text)
    requires a != [] && b != []
    ensures MultiLine([a, [], b]) == a + [NEWLINE] + b
  {
    assert [a, [], b][..2] == [a, []];
    assert [a, []][..1] == [a];
    assert MultiLine([a]) == a;
    assert MultiLine([a, []]) == a + [];
    assert a + [] == a;
  }

  /** The time written so far in one voice of a measure, and the note a
    * following note may form a chord with. */
  datatype VoiceState = VoiceState(tick: int, prev: Option<Elem>)

  /** One element of the measure, seen from voice `v` of staff `partNr`: a
    * note advances the time unless it joins the previous note's chord and
    * becomes the previous note; a rest advances the time and ends the chord;
    * anything else, or an element of another voice, changes nothing. */
  function VoiceStep(st: VoiceState, e: Elem, partNr: int, v: int): VoiceState
  {
    if e.staffIdx != partNr || e.voice != v then st
    else if e.IsNote() then
      VoiceState(st.tick + (if NotesAreInChord(st.prev, e) then 0 else NoteDuration(e)), Some(e))
    else if e.IsRest() then VoiceState(st.tick + RestDuration(e), None)
    else st
  }

  function VoiceRun(es: seq<Elem>, partNr: int, v: int): VoiceState
  {
    if |es| == 0 then VoiceState(0, None)
    else VoiceStep(VoiceRun(es[..|es| - 1], partNr, v), es[|es| - 1], partNr, v)
  }

  /** The voices staff `partNr` uses in a measure. */
  function VoicesOf(es: seq<Elem>, partNr: int): set<int>
  {
    if |es| == 0 then {}
    else VoicesOf(es[..|es| - 1], partNr) + (if es[|es| - 1].staffIdx == partNr then {es[|es| - 1].voice as int} else {})
  }

  lemma {:induction false} VoicesOfContents(es: seq<Elem>, partNr: int, v: int)
    ensures v in VoicesOf(es, partNr) <==> exists k :: 0 <= k < |es| && es[k].staffIdx == partNr && es[k].voice == v
  {
    if |es| > 0 {
      var init := es[..|es| - 1];
      VoicesOfContents(init, partNr, v);
      if v in VoicesOf(init, partNr) {
        var k :| 0 <= k < |init| && init[k].staffIdx == partNr && init[k].voice == v;
        assert es[k] == init[k];
      }
      if exists k :: 0 <= k < |es| && es[k].staffIdx == partNr && es[k].voice == v {
        var k :| 0 <= k < |es| && es[k].staffIdx == partNr && es[k].voice == v;
        if k < |init| {
          assert init[k] == es[k];
        }
      }
    }
  }

  /** measure()'s voice loop: voices in increasing order, each starting at
    * time 0; when the voice before left the time past 0 the converter backs
    * up by that amount. The result is the list of backups and the time the
    * last voice ends at. */
  function Timing(es: seq<Elem>, partNr: int, voices: set<int>, k: nat): (r: (seq<int>, int))
    ensures r.1 >= 0
    ensures forall j :: 0 <= j < |r.0| ==> r.0[j] > 0
  {
    if k == 0 then ([], 0)
    else
      var (backups, tick) := Timing(es, partNr, voices, k - 1);
      if k - 1 in voices then
        VoiceRunNonNegative(es, partNr, k - 1);
        (backups + (if tick > 0 then [tick] else []), VoiceRun(es, partNr, k - 1).tick)
      else (backups, tick)
  }

  function MeasureTiming(m: Measure, partNr: int): (seq<int>, int)
  {
    Timing(m.elems, partNr, VoicesOf(m.elems, partNr), 16)
  }

  lemma {:induction false} VoiceRunNonNegative(es: seq<Elem>, partNr: int, v: int)
    ensures VoiceRun(es, partNr, v).tick >= 0
    ensures VoiceRun(es, partNr, v).prev.Some? ==> VoiceRun(es, partNr, v).prev.value.IsNote()
  {
    if |es| > 0 {
      VoiceRunNonNegative(es[..|es| - 1], partNr, v);
    }
  }

  /** Elements of other voices and other staves do not affect a voice. */
  function OnlyVoice(es: seq<Elem>, partNr: int, v: int): (r: seq<Elem>)
    ensures forall k :: 0 <= k < |r| ==> r[k].staffIdx == partNr && r[k].voice == v
  {
    if |es| == 0 then []
    else
      var e := es[|es| - 1];
      OnlyVoice(es[..|es| - 1], partNr, v) + (if e.staffIdx == partNr && e.voice == v then [e] else [])
  }

  lemma {:induction false} VoiceRunOnlyVoice(es: seq<Elem>, partNr: int, v: int)
    ensures VoiceRun(es, partNr, v) == VoiceRun(OnlyVoice(es, partNr, v), partNr, v)
  {
    if |es| > 0 {
      var init := es[..|es| - 1];
      var e := es[|es| - 1];
      VoiceRunOnlyVoice(init, partNr, v);
      var o := OnlyVoice(init, partNr, v);
      if e.staffIdx == partNr && e.voice == v {
        assert (o + [e])[..|o + [e]| - 1] == o;
      } else {
        assert o + [] == o;
      }
    }
  }

  /** The notes of one chord take the time of the first of them. */
  lemma {:induction false} ChordTakesFirstNote(es: seq<Elem>, partNr: int, v: int)
    requires |es| >= 1
    requires forall k :: 0 <= k < |es| ==> es[k].IsNote() && es[k].staffIdx == partNr && es[k].voice == v
    requires forall k :: 0 <= k < |es| ==> es[k].tick == es[0].tick && es[k].xoffset == es[0].xoffset
    ensures VoiceRun(es, partNr, v).tick == NoteDuration(es[0])
    ensures NotesAreInChord(VoiceRun(es, partNr, v).prev, es[0])
  {
    if |es| > 1 {
      var init := es[..|es| - 1];
      ChordTakesFirstNote(init, partNr, v);
      assert init[0] == es[0];
    } else {
      assert VoiceRun(es, partNr, v) == VoiceStep(VoiceRun([], partNr, v), es[0], partNr, v) by {
        assert es[..0] == [];
      }
    }
  }

  /** A staff with a single voice needs no backup. */
  lemma {:induction false} SingleVoiceNoBackup(es: seq<Elem>, partNr: int, v: int, k: nat)
    requires 0 <= v < k
    ensures Timing(es, partNr, {v}, k) == ([], VoiceRun(es, partNr, v).tick)
  {
    if k - 1 > v {
      SingleVoiceNoBackup(es, partNr, v, k - 1);
    } else {
      NoVoiceBelow(es, partNr, v, v);
      var none: seq<int> := [];
      assert none + [] == none;
    }
  }

  lemma {:induction false} NoVoiceBelow(es: seq<Elem>, partNr: int, v: int, k: nat)
    requires k <= v
    ensures Timing(es, partNr, {v}, k) == ([], 0)
  {
    if k > 0 {
      NoVoiceBelow(es, partNr, v, k - 1);
    }
  }

  method CollectVoices(es: seq<Elem>, partNr: int) returns (voices: set<int>)
    ensures voices == VoicesOf(es, partNr)
  {
    voices := {};
    for k := 0 to |es|
      invariant voices == VoicesOf(es[..k], partNr)
    {
      assert es[..k + 1][..k] == es[..k];
      if es[k].staffIdx == partNr {
        voices := voices + {es[k].voice as int};
      }
    }
    assert es[..|es|] == es;
  }

  method RunVoice(es: seq<Elem>, partNr: int, v: int) returns (tick: int)
    ensures tick == VoiceRun(es, partNr, v).tick
  {
    var prev: Option<Elem> := None;
    tick := 0;
    for k := 0 to |es|
      invariant VoiceState(tick, prev) == VoiceRun(es[..k], partNr, v)
    {
      assert es[..k + 1][..k] == es[..k];
      var e := es[k];
      if e.staffIdx == partNr && e.voice == v {
        var duration := 0;
        if e.IsNote() {
          var isChord := NotesAreInChord(prev, e);
          if !isChord {
            duration := DurationNote(e);
          }
          prev := Some(e);
        } else if e.IsRest() {
          duration := DurationRest(e);
          prev := None;
        }
        tick := tick + duration;
      }
    }
    assert es[..|es|] == es;
  }

  method MeasureVoiceTiming(m: Measure, partNr: int) returns (backups: seq<int>, tick: int)
    ensures (backups, tick) == MeasureTiming(m, partNr)
  {
    var voices := CollectVoices(m.elems, partNr);
    backups, tick := [], 0;
    for v := 0 to 16
      invariant (backups, tick) == Timing(m.elems, partNr, voices, v)
    {
      ghost var (b0, t0) := (backups, tick);
      if v in voices {
        VoiceRunNonNegative(m.elems, partNr, v);
        if tick > 0 {
          backups := backups + [tick];
          tick := 0;
        }
        var t := RunVoice(m.elems, partNr, v);
        tick := tick + t;
        assert backups == b0 + (if t0 > 0 then [t0] else []);
      }
    }
  }
}
