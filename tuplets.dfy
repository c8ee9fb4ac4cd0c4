/** The tuplet state handler both MusicXML renderers use: it follows the notes
  * and rests of one voice and tells which of them start, continue or end a
  * tuplet bracket. */
module Tuplets {
  import opened Bytes

  datatype TupletState = NONE | START | MID | STOP

  function Pow2(n: nat): (r: nat)
    ensures r >= 1
  {
    if n == 0 then 1 else 2 * Pow2(n - 1)
  }

  lemma {:induction false} Pow2Add(a: nat, b: nat)
    ensures Pow2(a + b) == Pow2(a) * Pow2(b)
  {
    if a > 0 {
      Pow2Add(a - 1, b);
    }
  }

  /** The handler's two counters: how many notes of face value `value` the
    * current tuplet holds so far. */
  datatype Counter = Counter(count: int, value: int)

  /** newNote as a function of the counters before the call: a note outside a
    * tuplet resets the count; the first note of a tuplet starts it; a later
    * note is counted in units of the shorter of the two face values (the
    * count is doubled while the note is shorter, the note counts double while
    * it is longer), and the tuplet stops once the count reaches actualNotes. */
  function TupletStep(c: Counter, actualNotes: byte, normalNotes: byte, faceValue: byte): (r: (TupletState, Counter))
    ensures r.0 == NONE <==> actualNotes == 0 || normalNotes == 0
    ensures r.0 == START <==> actualNotes > 0 && normalNotes > 0 && c.count == 0
    ensures r.0 == START ==> r.1 == Counter(1, faceValue)
    ensures r.0 == STOP || r.0 == NONE ==> r.1.count == 0
  {
    if actualNotes == 0 || normalNotes == 0 then (NONE, c.(count := 0))
    else if c.count == 0 then (START, Counter(1, faceValue))
    else
      var total := Recount(c.count, c.value, faceValue);
      var value := Max(c.value, faceValue);
      if total >= actualNotes then (STOP, Counter(0, value))
      else (MID, Counter(total, value))
  }

  /** The counters always hold a count of zero or more and a face value. */
  predicate CounterOk(c: Counter)
  {
    c.count >= 0 && 0 <= c.value <= 255
  }

  /** From sound counters the handler reaches sound counters, and after a MID
    * the count is positive and still short of actualNotes. */
  lemma StepKeepsCounterOk(c: Counter, actualNotes: byte, normalNotes: byte, faceValue: byte)
    requires CounterOk(c)
    ensures var (res, c') := TupletStep(c, actualNotes, normalNotes, faceValue);
            CounterOk(c') && (res == MID ==> 0 < c'.count < actualNotes)
  {
  }

  /** A note's length in units of the shortest face value a byte can hold. */
  function Units(faceValue: int): (u: nat)
    requires 0 <= faceValue <= 255
    ensures u >= 1
  {
    Pow2(255 - faceValue)
  }

  lemma UnitsScale(longer: int, shorter: int)
    requires 0 <= longer <= shorter <= 255
    ensures Units(longer) == Units(shorter) * Pow2(shorter - longer)
  {
    Pow2Add(255 - shorter, shorter - longer);
  }

  /** The time a tuplet has used so far, in Units. */
  function Elapsed(c: Counter): int
    requires CounterOk(c)
  {
    c.count * Units(c.value)
  }

  /** The new count of a later note, counted in the shorter face value. */
  function Recount(count: int, value: int, faceValue: int): int
  {
    (if faceValue > value then count * Pow2(faceValue - value) else count) +
    (if value > faceValue then Pow2(value - faceValue) else 1)
  }

  lemma Distribute(x: int, y: int, z: int)
    ensures (x + y) * z == x * z + y * z
  {
  }

  lemma Associate(x: int, y: int, z: int)
    ensures (x * y) * z == x * (y * z)
  {
  }

  /** The counting both handlers share: the recounted total, in Units of the
    * longer-valued (shorter) face value, is the old elapsed time plus the
    * note's own length. */
  lemma RecountAddsNoteLength(count: int, value: int, faceValue: int)
    requires 0 <= value <= 255 && 0 <= faceValue <= 255
    ensures Recount(count, value, faceValue) * Units(Max(value, faceValue)) ==
            count * Units(value) + Units(faceValue)
  {
    if faceValue > value {
      var p := Pow2(faceValue - value);
      UnitsScale(value, faceValue);
      assert Recount(count, value, faceValue) == count * p + 1;
      ScaleUp(count, p, Units(faceValue));
    } else {
      var p := if value > faceValue then Pow2(value - faceValue) else 1;
      UnitsScale(faceValue, value);
      assert Recount(count, value, faceValue) == count + p;
      assert Units(faceValue) == Units(value) * p;
      ScaleDown(count, p, Units(value));
    }
  }

  /** A count doubled p times plus one note, in units u p times smaller. */
  lemma ScaleUp(count: int, p: int, u: int)
    ensures (count * p + 1) * u == count * (u * p) + u
  {
    Distribute(count * p, 1, u);
    Associate(count, p, u);
  }

  /** A count plus one note worth p notes, in units u. */
  lemma ScaleDown(count: int, p: int, u: int)
    ensures (count + p) * u == count * u + u * p
  {
    Distribute(count, p, u);
  }

  lemma TimesPositive(x: int, y: int, u: int)
    requires u > 0
    ensures x >= y <==> x * u >= y * u
  {
    if x >= y {
      assert x * u - y * u == (x - y) * u;
    } else {
      assert y * u - x * u == (y - x) * u;
    }
  }

  /** A later note of a tuplet adds its own length to the elapsed time, and
    * the handler as written stops once that time reaches actualNotes notes of
    * the SHORTEST face value seen so far, not of the tuplet's first note. */
  lemma StepAddsNoteLength(c: Counter, actualNotes: byte, normalNotes: byte, faceValue: byte)
    requires CounterOk(c) && c.count > 0 && actualNotes > 0 && normalNotes > 0
    ensures var (res, c') := TupletStep(c, actualNotes, normalNotes, faceValue);
            var elapsed := Elapsed(c) + Units(faceValue);
            CounterOk(c') && c'.value == Max(c.value, faceValue) &&
            (res == STOP <==> elapsed >= actualNotes * Units(c'.value)) &&
            (res == MID ==> Elapsed(c') == elapsed)
  {
    var w := Max(c.value, faceValue);
    var total := Recount(c.count, c.value, faceValue);
    RecountAddsNoteLength(c.count, c.value, faceValue);
    TimesPositive(total, actualNotes as int, Units(w));
  }

  /** A tuplet of three equal notes is bracketed from the first to the third. */
  lemma EqualTriplet()
    ensures var (s1, c1) := TupletStep(Counter(0, 0), 3, 2, 4);
            var (s2, c2) := TupletStep(c1, 3, 2, 4);
            var (s3, c3) := TupletStep(c2, 3, 2, 4);
            [s1, s2, s3] == [START, MID, STOP] && c3 == Counter(0, 4)
  {
  }

  /** Eighth, two sixteenths, eighth in 3:2: the handler reads the eighth and
    * the first sixteenth as one complete triplet of sixteenths, and the other
    * two notes as a second one. */
  lemma SplitTripletStopsEarly()
    ensures var (s1, c1) := TupletStep(Counter(0, 0), 3, 2, 4);
            var (s2, c2) := TupletStep(c1, 3, 2, 5);
            var (s3, c3) := TupletStep(c2, 3, 2, 5);
            var (s4, c4) := TupletStep(c3, 3, 2, 4);
            [s1, s2, s3, s4] == [START, STOP, START, STOP]
  {
  }

  /** TupletHandler: the counters start at zero. */
  class TupletHandler {
    var count: int
    var value: int

    function State(): Counter
      reads this
    {
      Counter(count, value)
    }

    constructor ()
      ensures State() == Counter(0, 0)
    {
      count, value := 0, 0;
    }

    method NewNote(actualNotes: byte, normalNotes: byte, faceValue: byte) returns (res: TupletState)
      modifies this
      ensures (res, State()) == TupletStep(old(State()), actualNotes, normalNotes, faceValue)
    {
      res := NONE;
      if actualNotes <= 0 || normalNotes <= 0 {
        count := 0;
      } else if count == 0 {
        res := START;
        count := count + 1;
        value := faceValue as int;
      } else {
        var noteCount := 1;
        var noteValue := faceValue as int;
        ghost var c0, v0 := count, value;
        while noteValue > value
          invariant value <= noteValue || value == v0
          invariant v0 <= value ==> count == c0 * Pow2(value - v0)
          invariant v0 < noteValue ==> v0 <= value
          invariant v0 >= noteValue ==> value == v0 && count == c0
          decreases noteValue - value
        {
          count := count * 2;
          value := value + 1;
        }
        assert value == if faceValue > v0 then faceValue as int else v0;
        while value > noteValue
          invariant noteValue <= value
          invariant faceValue <= noteValue
          invariant noteCount == Pow2(noteValue - faceValue)
          decreases value - noteValue
        {
          noteCount := noteCount * 2;
          noteValue := noteValue + 1;
        }
        count := count + noteCount;
        if count >= actualNotes as int {
          res := STOP;
          count := 0;
        } else {
          res := MID;
        }
      }
    }
  }

  /** An alternative rule, not the source's: it also remembers the face value
    * of the tuplet's first note, and measures actualNotes in that value, so
    * the bracket closes when the notes add up to actualNotes first notes. */
  datatype ScaledCounter = ScaledCounter(count: int, value: int, base: int)

  /** actualNotes first notes, counted in notes of face value `value`. */
  function Limit(actualNotes: int, value: int, base: int): int
  {
    if value > base then actualNotes * Pow2(value - base) else actualNotes
  }

  function ScaledStep(c: ScaledCounter, actualNotes: byte, normalNotes: byte, faceValue: byte): (r: (TupletState, ScaledCounter))
    ensures r.0 == NONE <==> actualNotes == 0 || normalNotes == 0
    ensures r.0 == START <==> actualNotes > 0 && normalNotes > 0 && c.count == 0
    ensures r.0 == START ==> r.1 == ScaledCounter(1, faceValue, faceValue)
    ensures r.0 == STOP || r.0 == NONE ==> r.1.count == 0
  {
    if actualNotes == 0 || normalNotes == 0 then (NONE, c.(count := 0))
    else if c.count == 0 then (START, ScaledCounter(1, faceValue, faceValue))
    else
      var total := Recount(c.count, c.value, faceValue);
      var value := Max(c.value, faceValue);
      if total >= Limit(actualNotes, value, c.base) then (STOP, ScaledCounter(0, value, c.base))
      else (MID, ScaledCounter(total, value, c.base))
  }

  predicate ScaledOk(c: ScaledCounter)
  {
    c.count >= 0 && 0 <= c.base <= c.value <= 255
  }

  function ScaledElapsed(c: ScaledCounter): int
    requires ScaledOk(c)
  {
    c.count * Units(c.value)
  }

  /** A later note adds its own length to the elapsed time, and the
    * alternative rule stops exactly when that time reaches actualNotes notes
    * of the tuplet's first face value. */
  lemma ScaledStepAddsNoteLength(c: ScaledCounter, actualNotes: byte, normalNotes: byte, faceValue: byte)
    requires ScaledOk(c) && c.count > 0 && actualNotes > 0 && normalNotes > 0
    ensures var (res, c') := ScaledStep(c, actualNotes, normalNotes, faceValue);
            var elapsed := ScaledElapsed(c) + Units(faceValue);
            ScaledOk(c') && c'.base == c.base &&
            (res == STOP <==> elapsed >= actualNotes * Units(c.base)) &&
            (res == MID ==> ScaledElapsed(c') == elapsed)
  {
    var w := Max(c.value, faceValue);
    var total := Recount(c.count, c.value, faceValue);
    RecountAddsNoteLength(c.count, c.value, faceValue);
    LimitInUnits(actualNotes as int, w, c.base);
    TimesPositive(total, Limit(actualNotes as int, w, c.base), Units(w));
  }

  /** The limit in notes of face value `value` is actualNotes first notes. */
  lemma LimitInUnits(actualNotes: int, value: int, base: int)
    requires 0 <= base <= value <= 255
    ensures Limit(actualNotes, value, base) * Units(value) == actualNotes * Units(base)
  {
    UnitsScale(base, value);
    if value > base {
      Associate(actualNotes, Pow2(value - base), Units(value));
    }
  }

  /** Eighth, two sixteenths, eighth: the alternative rule brackets all four
    * as one triplet of eighths. */
  lemma SplitTripletScaled()
    ensures var (s1, c1) := ScaledStep(ScaledCounter(0, 0, 0), 3, 2, 4);
            var (s2, c2) := ScaledStep(c1, 3, 2, 5);
            var (s3, c3) := ScaledStep(c2, 3, 2, 5);
            var (s4, c4) := ScaledStep(c3, 3, 2, 4);
            [s1, s2, s3, s4] == [START, MID, MID, STOP]
  {
  }

  /** Two quarter-eighth triplets in 3:2: the source's handler closes a bracket
    * after each eighth, while the alternative rule, measuring in quarters,
    * runs both into one bracket. Neither rule is right on every rhythm: a
    * tuplet's notes do not say the bracket's base value. */
  lemma TwoQuarterEighthTriplets()
    ensures var (s1, c1) := TupletStep(Counter(0, 0), 3, 2, 3);
            var (s2, c2) := TupletStep(c1, 3, 2, 4);
            var (s3, c3) := TupletStep(c2, 3, 2, 3);
            var (s4, c4) := TupletStep(c3, 3, 2, 4);
            [s1, s2, s3, s4] == [START, STOP, START, STOP]
    ensures var (s1, c1) := ScaledStep(ScaledCounter(0, 0, 0), 3, 2, 3);
            var (s2, c2) := ScaledStep(c1, 3, 2, 4);
            var (s3, c3) := ScaledStep(c2, 3, 2, 3);
            var (s4, c4) := ScaledStep(c3, 3, 2, 4);
            [s1, s2, s3, s4] == [START, MID, MID, STOP]
  {
  }

  /** On notes of one face value the alternative rule agrees with the
    * source's handler. */
  lemma ScaledAgreesOnEqualValues(c: ScaledCounter, actualNotes: byte, normalNotes: byte, faceValue: byte)
    requires c.count == 0 || c.value == c.base == faceValue
    ensures var (s, d) := ScaledStep(c, actualNotes, normalNotes, faceValue);
            var (t, e) := TupletStep(Counter(c.count, c.value), actualNotes, normalNotes, faceValue);
            s == t && d.count == e.count && d.value == e.value
  {
  }
}
