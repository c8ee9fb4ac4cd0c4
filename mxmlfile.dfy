/** The plain MusicXML file writer: durations in divisions of 480 per
  * quarter, and the order in which one measure's notes and rests of the
  * first staff are written. */
module MxmlFile {
  import opened Bytes
  import opened Wrappers
  import opened EncTypes
  import opened Notation
  import opened Tuplets
  import MxmlConvert

  /** faceValue2duration of the file writer: a whole note lasts 1920, each
    * further face value exactly half as long; codes outside 1 to 8 last
    * nothing. */
  function FaceValueToDuration(faceValue: int): (d: nat)
    ensures 1 <= faceValue <= 8 ==> d * Pow2(faceValue - 1) == 1920
    ensures !(1 <= faceValue <= 8) ==> d == 0
  {
    assert Pow2(7) == 128 && Pow2(6) == 64 && Pow2(5) == 32 && Pow2(4) == 16 && Pow2(3) == 8;
    match faceValue
    case 1 => 1920
    case 2 => 960
    case 3 => 480
    case 4 => 240
    case 5 => 120
    case 6 => 60
    case 7 => 30
    case 8 => 15
    case _ => 0
  }

  /** With 480 divisions per quarter against the converter's 240, both
    * writers give every face value down to the 64th the same length in
    * quarters; the converter's 128th is half a division short. */
  lemma SameLengthAsConverter(faceValue: int)
    ensures 1 <= faceValue <= 7 ==> FaceValueToDuration(faceValue) == 2 * MxmlConvert.FaceValueToDuration(faceValue)
    ensures FaceValueToDuration(8) == 2 * MxmlConvert.FaceValueToDuration(8) + 1
  {
  }

  /** The duration writeNote and writeRest compute: face value, dots and
    * tuplet, with no exception for grace notes. */
  function Duration(e: Elem): nat
    requires e.IsNote() || e.IsRest()
  {
    var b := e.body;
    MxmlConvert.TupletScaled(MxmlConvert.Dotted(FaceValueToDuration(b.faceValue % 16), b.dotControl % 4),
                             ActualNotes(b.tuplet), NormalNotes(b.tuplet))
  }

  method WriteDuration(e: Elem) returns (d: nat)
    requires e.IsNote() || e.IsRest()
    ensures d == Duration(e)
  {
    var b := e.body;
    d := MxmlConvert.ApplyDots(FaceValueToDuration(b.faceValue % 16), b.dotControl % 4);
    d := MxmlConvert.ApplyTuplet(d, ActualNotes(b.tuplet), NormalNotes(b.tuplet));
  }

  /** Unlike the converter, the file writer gives a grace note its full
    * length. */
  lemma GraceNoteKeepsLength(e: Elem)
    requires e.IsNote() && MxmlConvert.IsGrace(e)
    requires 1 <= e.body.faceValue % 16 <= 8 && e.body.dotControl % 4 == 0 && ActualNotes(e.body.tuplet) == 0
    ensures Duration(e) > 0 && MxmlConvert.NoteDuration(e) == 0
  {
  }

  /** The multimap key of element k: its xoffset. */
  function Key(es: seq<Elem>, k: nat): byte
  {
    if k < |es| then es[k].xoffset else 0
  }

  /** writeMeasure's multimap: element k goes before element j when its
    * xoffset is smaller, or equal and it was inserted first. */
  predicate Before(es: seq<Elem>, k: nat, j: nat)
  {
    Key(es, k) < Key(es, j) || (Key(es, k) == Key(es, j) && k < j)
  }

  predicate InOrder(es: seq<Elem>, order: seq<nat>)
  {
    forall a, b :: 0 <= a < b < |order| ==> Before(es, order[a], order[b])
  }

  /** The first position whose element has a larger xoffset than `x`:
    * multimap::insert places an equal key after the ones already there. */
  function UpperBound(es: seq<Elem>, order: seq<nat>, x: byte): (pos: nat)
    ensures pos <= |order|
  {
    if |order| == 0 then 0
    else if Key(es, order[|order| - 1]) <= x then |order|
    else UpperBound(es, order[..|order| - 1], x)
  }

  /** Element k inserted into the multimap at its upper bound. */
  function Insert(es: seq<Elem>, order: seq<nat>, k: nat): seq<nat>
  {
    var pos := UpperBound(es, order, Key(es, k));
    order[..pos] + [k] + order[pos..]
  }

  /** The multimap's contents after inserting the staff-0 elements among the
    * first n, in iteration order. */
  function StableOrder(es: seq<Elem>, n: nat): seq<nat>
    requires n <= |es|
  {
    if n == 0 then []
    else if es[n - 1].staffIdx == 0 then Insert(es, StableOrder(es, n - 1), n - 1)
    else StableOrder(es, n - 1)
  }

  /** UpperBound splits a sorted sequence into keys up to `x` and keys above. */
  lemma {:induction false} UpperBoundSplits(es: seq<Elem>, order: seq<nat>, x: byte)
    requires InOrder(es, order)
    ensures var pos := UpperBound(es, order, x);
            (forall a :: 0 <= a < pos ==> Key(es, order[a]) <= x) &&
            (forall a :: pos <= a < |order| ==> Key(es, order[a]) > x)
  {
    if |order| > 0 && Key(es, order[|order| - 1]) > x {
      var init := order[..|order| - 1];
      UpperBoundSplits(es, init, x);
    } else if |order| > 0 {
      forall a | 0 <= a < |order| - 1
        ensures Key(es, order[a]) <= x
      {
        assert Before(es, order[a], order[|order| - 1]);
      }
    }
  }

  /** The elements of an insertion, position by position. */
  lemma InsertIndexes(es: seq<Elem>, order: seq<nat>, k: nat)
    ensures var pos := UpperBound(es, order, Key(es, k));
            var r := Insert(es, order, k);
            |r| == |order| + 1 &&
            forall a :: 0 <= a < |r| ==> r[a] == (if a < pos then order[a] else if a == pos then k else order[a - 1])
  {
  }

  /** Inserting a later element at its upper bound keeps the order. */
  lemma InsertKeepsOrder(es: seq<Elem>, order: seq<nat>, j: nat)
    requires InOrder(es, order)
    requires forall a :: 0 <= a < |order| ==> order[a] < j
    ensures InOrder(es, Insert(es, order, j))
  {
    var pos := UpperBound(es, order, Key(es, j));
    UpperBoundSplits(es, order, Key(es, j));
    InsertIndexes(es, order, j);
    var r := Insert(es, order, j);
    forall a, b | 0 <= a < b < |r|
      ensures Before(es, r[a], r[b])
    {
      if b < pos {
        assert Before(es, order[a], order[b]);
      } else if a > pos {
        assert Before(es, order[a - 1], order[b - 1]);
      } else if a == pos {
        assert order[b - 1] < j;
      } else if b == pos {
        assert order[a] < j;
      } else {
        assert Before(es, order[a], order[b - 1]);
      }
    }
  }

  lemma InsertContents(es: seq<Elem>, order: seq<nat>, k: nat)
    ensures forall x :: x in Insert(es, order, k) <==> x in order || x == k
  {
    var pos := UpperBound(es, order, Key(es, k));
    assert order == order[..pos] + order[pos..];
  }

  /** The multimap holds exactly the elements of the first staff. */
  lemma {:induction false} StableOrderContents(es: seq<Elem>, n: nat)
    requires n <= |es|
    ensures forall k :: k in StableOrder(es, n) <==> 0 <= k < n && es[k].staffIdx == 0
  {
    if n > 0 {
      StableOrderContents(es, n - 1);
      if es[n - 1].staffIdx == 0 {
        InsertContents(es, StableOrder(es, n - 1), n - 1);
      }
    }
  }

  lemma StableOrderBounded(es: seq<Elem>, n: nat)
    requires n <= |es|
    ensures forall a :: 0 <= a < |StableOrder(es, n)| ==> StableOrder(es, n)[a] < n
  {
    StableOrderContents(es, n);
    var order := StableOrder(es, n);
    forall a | 0 <= a < |order|
      ensures order[a] < n
    {
      assert order[a] in order;
    }
  }

  /** The multimap iterates in xoffset order, ties in file order. */
  lemma {:induction false} StableOrderSorted(es: seq<Elem>, n: nat)
    requires n <= |es|
    ensures InOrder(es, StableOrder(es, n))
  {
    if n > 0 {
      StableOrderSorted(es, n - 1);
      if es[n - 1].staffIdx == 0 {
        StableOrderBounded(es, n - 1);
        InsertKeepsOrder(es, StableOrder(es, n - 1), n - 1);
      }
    }
  }

  lemma SameElementsSameEmptiness(p: seq<nat>, q: seq<nat>)
    requires forall x :: x in p <==> x in q
    ensures |p| == 0 <==> |q| == 0
  {
    if |p| > 0 {
      assert p[0] in q;
    }
    if |q| > 0 {
      assert q[0] in p;
    }
  }

  /** The iteration order is determined: two sorted sequences holding the
    * same elements are equal. */
  lemma {:induction false} InOrderUnique(es: seq<Elem>, p: seq<nat>, q: seq<nat>)
    requires InOrder(es, p) && InOrder(es, q)
    requires forall x :: x in p <==> x in q
    ensures p == q
    decreases |p| + |q|
  {
    SameElementsSameEmptiness(p, q);
    if |p| > 0 && |q| > 0 {
      // the first of each is the least element of both
      var x, y := p[0], q[0];
      assert y in p;
      assert x in q;
      if x != y {
        assert false;
      }
      forall z
        ensures z in p[1..] <==> z in q[1..]
      {
        if z in p[1..] {
          var i :| 0 <= i < |p[1..]| && p[1..][i] == z;
          assert Before(es, p[0], p[i + 1]);
          assert z in q;
          var j :| 0 <= j < |q| && q[j] == z;
          assert j != 0;
          assert q[1..][j - 1] == z;
        }
        if z in q[1..] {
          var j :| 0 <= j < |q[1..]| && q[1..][j] == z;
          assert Before(es, q[0], q[j + 1]);
          assert z in p;
          var i :| 0 <= i < |p| && p[i] == z;
          assert i != 0;
          assert p[1..][i - 1] == z;
        }
      }
      InOrderUnique(es, p[1..], q[1..]);
      assert p == [x] + p[1..] && q == [y] + q[1..];
    }
  }

  method MultimapOrder(es: seq<Elem>) returns (order: seq<nat>)
    ensures order == StableOrder(es, |es|)
  {
    order := [];
    for k := 0 to |es|
      invariant order == StableOrder(es, k)
    {
      if es[k].staffIdx == 0 {
        var pos := FindUpperBound(es, order, es[k].xoffset);
        order := order[..pos] + [k] + order[pos..];
      }
    }
  }

  /** The insertion point, found by walking back from the end. */
  method FindUpperBound(es: seq<Elem>, order: seq<nat>, x: byte) returns (pos: nat)
    ensures pos == UpperBound(es, order, x)
  {
    pos := |order|;
    assert order[..pos] == order;
    while pos > 0 && Key(es, order[pos - 1]) > x
      invariant 0 <= pos <= |order|
      invariant UpperBound(es, order, x) == UpperBound(es, order[..pos], x)
    {
      assert order[..pos][..pos - 1] == order[..pos - 1];
      pos := pos - 1;
    }
  }

  /** What writeMeasure writes for one element of the first staff. */
  datatype Written =
    | NoteOut(pitch: Spelling, duration: nat, tuplet: TupletState)
    | RestOut(duration: nat, tuplet: TupletState)

  /** The notes and rests named by `order`, written in that order with the
    * measure's tuplet handler, and the handler's counters afterwards. */
  function Render(es: seq<Elem>, order: seq<nat>): (r: (seq<Written>, Counter))
    requires forall a :: 0 <= a < |order| ==> order[a] < |es|
    ensures |r.0| <= |order|
  {
    if |order| == 0 then ([], Counter(0, 0))
    else
      var (out, c) := Render(es, order[..|order| - 1]);
      var e := es[order[|order| - 1]];
      if e.IsNote() || e.IsRest() then
        var (state, c') := TupletStep(c, ActualNotes(e.body.tuplet), NormalNotes(e.body.tuplet), e.body.faceValue % 16);
        var w := if e.IsNote() then NoteOut(SharpSpelling(e.body.semiTonePitch), Duration(e), state)
                 else RestOut(Duration(e), state);
        (out + [w], c')
      else (out, c)
  }

  /** The elements a measure's first staff writes, in the order written. */
  function MeasureOutput(m: Measure): seq<Written>
  {
    StableOrderBounded(m.elems, |m.elems|);
    Render(m.elems, StableOrder(m.elems, |m.elems|)).0
  }

  /** The positions of `order` that writeNote or writeRest handle, in order. */
  function NotesAndRests(es: seq<Elem>, order: seq<nat>): (ks: seq<nat>)
    requires forall a :: 0 <= a < |order| ==> order[a] < |es|
    ensures |ks| <= |order|
    ensures forall a :: 0 <= a < |ks| ==> ks[a] < |es| && (es[ks[a]].IsNote() || es[ks[a]].IsRest())
  {
    if |order| == 0 then []
    else
      var k := order[|order| - 1];
      NotesAndRests(es, order[..|order| - 1]) + (if es[k].IsNote() || es[k].IsRest() then [k] else [])
  }

  /** NotesAndRests keeps exactly the notes and rests of `order`, and keeps
    * the multimap's order among them. */
  lemma {:induction false} NotesAndRestsSelects(es: seq<Elem>, order: seq<nat>)
    requires forall a :: 0 <= a < |order| ==> order[a] < |es|
    ensures forall k :: k in NotesAndRests(es, order) <==> k in order && k < |es| && (es[k].IsNote() || es[k].IsRest())
    ensures InOrder(es, order) ==> InOrder(es, NotesAndRests(es, order))
  {
    if |order| > 0 {
      var init := order[..|order| - 1];
      var k := order[|order| - 1];
      NotesAndRestsSelects(es, init);
      assert order == init + [k];
      if InOrder(es, order) {
        var ks := NotesAndRests(es, order);
        var ks0 := NotesAndRests(es, init);
        assert InOrder(es, init) by {
          forall a, b | 0 <= a < b < |init|
            ensures Before(es, init[a], init[b])
          {
            assert init[a] == order[a] && init[b] == order[b];
          }
        }
        forall a, b | 0 <= a < b < |ks|
          ensures Before(es, ks[a], ks[b])
        {
          if b >= |ks0| {
            assert ks[a] == ks0[a] && ks[b] == k;
            assert ks0[a] in init;
            var i :| 0 <= i < |init| && init[i] == ks0[a];
            assert Before(es, order[i], order[|order| - 1]);
          } else {
            assert ks[a] == ks0[a] && ks[b] == ks0[b];
          }
        }
      }
    }
  }

  /** What element e of the measure looks like once written, whatever its
    * tuplet mark: a note with its pitch, a rest, each with its duration. */
  predicate Writes(e: Elem, w: Written)
    requires e.IsNote() || e.IsRest()
  {
    if e.IsNote() then w == NoteOut(SharpSpelling(e.body.semiTonePitch), Duration(e), w.tuplet)
    else w == RestOut(Duration(e), w.tuplet)
  }

  /** The tuplet marks one handler gives the notes and rests ks, fed to it in
    * that order, and its counters afterwards. */
  function Marks(es: seq<Elem>, ks: seq<nat>): (r: (seq<TupletState>, Counter))
    requires forall a :: 0 <= a < |ks| ==> ks[a] < |es| && (es[ks[a]].IsNote() || es[ks[a]].IsRest())
    ensures |r.0| == |ks|
  {
    if |ks| == 0 then ([], Counter(0, 0))
    else
      var (marks, c) := Marks(es, ks[..|ks| - 1]);
      var e := es[ks[|ks| - 1]];
      assert e.IsNote() || e.IsRest();
      var (state, c') := TupletStep(c, ActualNotes(e.body.tuplet), NormalNotes(e.body.tuplet), e.body.faceValue % 16);
      (marks + [state], c')
  }

  /** Every note and rest of `order` is written, once, in order, with its own
    * pitch and duration, and nothing else; the elements in between do not
    * reach the tuplet handler. */
  lemma {:induction false} RenderWritesNotesAndRests(es: seq<Elem>, order: seq<nat>)
    requires forall a :: 0 <= a < |order| ==> order[a] < |es|
    ensures var ks := NotesAndRests(es, order);
            var (out, c) := Render(es, order);
            |out| == |ks| && c == Marks(es, ks).1 &&
            (forall a :: 0 <= a < |out| ==> Writes(es[ks[a]], out[a])) &&
            (forall a :: 0 <= a < |out| ==> out[a].tuplet == Marks(es, ks).0[a])
  {
    if |order| > 0 {
      var init := order[..|order| - 1];
      var k := order[|order| - 1];
      RenderWritesNotesAndRests(es, init);
      var ks := NotesAndRests(es, order);
      var ks0 := NotesAndRests(es, init);
      if es[k].IsNote() || es[k].IsRest() {
        assert ks == ks0 + [k] && ks[..|ks| - 1] == ks0;
      } else {
        assert ks == ks0;
      }
    }
  }

  /** The elements writeMeasure hands to writeNote and writeRest, in the
    * order it writes them. */
  function WrittenElems(m: Measure): (ks: seq<nat>)
    ensures forall a :: 0 <= a < |ks| ==> ks[a] < |m.elems| && (m.elems[ks[a]].IsNote() || m.elems[ks[a]].IsRest())
  {
    StableOrderBounded(m.elems, |m.elems|);
    NotesAndRests(m.elems, StableOrder(m.elems, |m.elems|))
  }

  /** A measure writes the notes and rests of its first staff, each once, in
    * xoffset order with ties in file order, each with its own pitch and
    * duration. */
  lemma MeasureWritesFirstStaff(m: Measure)
    ensures var ks := WrittenElems(m);
            var out := MeasureOutput(m);
            |out| == |ks| && InOrder(m.elems, ks) &&
            (forall k :: k in ks <==> 0 <= k < |m.elems| && m.elems[k].staffIdx == 0 && (m.elems[k].IsNote() || m.elems[k].IsRest())) &&
            (forall a :: 0 <= a < |out| ==> Writes(m.elems[ks[a]], out[a]))
  {
    var es := m.elems;
    StableOrderBounded(es, |es|);
    var order := StableOrder(es, |es|);
    StableOrderContents(es, |es|);
    StableOrderSorted(es, |es|);
    NotesAndRestsSelects(es, order);
    RenderWritesNotesAndRests(es, order);
  }

  /** A measure outside any tuplet writes no tuplet bracket. */
  lemma {:induction false} NoTupletNoBracket(es: seq<Elem>, order: seq<nat>)
    requires forall a :: 0 <= a < |order| ==> order[a] < |es|
    requires forall k :: 0 <= k < |es| && (es[k].IsNote() || es[k].IsRest()) ==> ActualNotes(es[k].body.tuplet) == 0
    ensures forall a :: 0 <= a < |Render(es, order).0| ==> Render(es, order).0[a].tuplet == NONE
  {
    if |order| > 0 {
      NoTupletNoBracket(es, order[..|order| - 1]);
    }
  }

  /** writeMeasure: the multimap of the first staff, then each note and rest
    * in its order, with one tuplet handler for the measure. */
  method WriteMeasure(m: Measure) returns (out: seq<Written>)
    ensures out == MeasureOutput(m)
  {
    var order := MultimapOrder(m.elems);
    StableOrderBounded(m.elems, |m.elems|);
    var th := new TupletHandler();
    out := [];
    for a := 0 to |order|
      invariant (out, th.State()) == Render(m.elems, order[..a])
    {
      assert order[..a + 1][..a] == order[..a];
      var e := m.elems[order[a]];
      if e.IsNote() || e.IsRest() {
        var state := th.NewNote(ActualNotes(e.body.tuplet), NormalNotes(e.body.tuplet), e.body.faceValue % 16);
        var d := WriteDuration(e);
        if e.IsNote() {
          out := out + [NoteOut(SharpSpelling(e.body.semiTonePitch), d, state)];
        } else {
          out := out + [RestOut(d, state)];
        }
      }
    }
    assert order[..|order|] == order;
  }
}
