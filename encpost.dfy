/** The passes EncFile::read runs after decoding the blocks: made-up
  * instruments for files without "TKnn" blocks, the staff count of each
  * instrument, and a closing ornament for every slur and wedge. */
module EncPost {
  import opened Bytes
  import opened Wrappers
  import opened EncTypes

  // ---------------------------------------------------- fixupInstruments

  /** The decimal digits of `n`, as QString::arg writes an int. */
  function Decimal(n: nat): (t: Text)
    ensures |t| > 0 && forall k :: 0 <= k < |t| ==> '0' as int <= t[k] <= '9' as int
    ensures (t[0] == '0' as int) <==> n == 0
  {
    if n < 10 then ['0' as int + n] else Decimal(n / 10) + ['0' as int + n % 10]
  }

  /** Reads decimal digits back. */
  function ParseDecimal(t: Text): int
  {
    if |t| == 0 then 0 else 10 * ParseDecimal(t[..|t| - 1]) + (t[|t| - 1] - '0' as int)
  }

  lemma {:induction false} DecimalRoundTrip(n: nat)
    ensures ParseDecimal(Decimal(n)) == n
  {
    if n >= 10 {
      var t := Decimal(n);
      assert t[..|t| - 1] == Decimal(n / 10);
      DecimalRoundTrip(n / 10);
    }
  }

  /** "Part %1" with the part's number. */
  function PartName(n: nat): Text
  {
    ['P' as int, 'a' as int, 'r' as int, 't' as int, ' ' as int] + Decimal(n)
  }

  /** Different parts get different names. */
  lemma PartNamesDiffer(a: nat, b: nat)
    requires a != b
    ensures PartName(a) != PartName(b)
  {
    if PartName(a) == PartName(b) {
      assert PartName(a)[5..] == Decimal(a);
      assert PartName(b)[5..] == Decimal(b);
      DecimalRoundTrip(a);
      DecimalRoundTrip(b);
    }
  }

  /** A made-up instrument; the default-constructed fields other than the
    * name are taken to be zero. */
  function MadeUpInstrument(n: nat): Instrument
  {
    Instrument(0, PartName(n), 0)
  }

  function FixedInstruments(instruments: seq<Instrument>, count: int): seq<Instrument>
  {
    if |instruments| > 0 then instruments else seq(Max(count, 0), i requires 0 <= i => MadeUpInstrument(i + 1))
  }

  /** fixupInstruments: a file without instrument blocks gets `count`
    * instruments named "Part 1", "Part 2", and so on; otherwise the list is
    * kept as it is. */
  method FixupInstruments(instruments: seq<Instrument>, count: int) returns (r: seq<Instrument>)
    ensures |instruments| > 0 ==> r == instruments
    ensures |instruments| == 0 ==> |r| == Max(count, 0) && forall i :: 0 <= i < |r| ==> r[i] == MadeUpInstrument(i + 1)
    ensures r == FixedInstruments(instruments, count)
  {
    r := instruments;
    if |instruments| == 0 {
      var i := 0;
      while i < count
        invariant 0 <= i == |r| <= Max(count, 0)
        invariant forall j :: 0 <= j < i ==> r[j] == MadeUpInstrument(j + 1)
      {
        r := r + [MadeUpInstrument(i + 1)];
        i := i + 1;
      }
    }
  }

  /** The made-up instruments have distinct names. */
  lemma MadeUpNamesDistinct(r: seq<Instrument>)
    requires forall i :: 0 <= i < |r| ==> r[i] == MadeUpInstrument(i + 1)
    ensures forall i, j :: 0 <= i < j < |r| ==> r[i].name != r[j].name
  {
    forall i, j | 0 <= i < j < |r|
      ensures r[i].name != r[j].name
    {
      PartNamesDiffer(i + 1, j + 1);
    }
  }

  // --------------------------------------------------------- countStaves

  /** The number of staff records that belong to instrument `i`. */
  function StavesOf(staves: seq<StaffData>, instrumentIndex: StaffData -> int, i: int): (n: nat)
    ensures n <= |staves|
  {
    if |staves| == 0 then 0
    else StavesOf(staves[..|staves| - 1], instrumentIndex, i) + (if instrumentIndex(staves[|staves| - 1]) == i then 1 else 0)
  }

  function CountedInstruments(instruments: seq<Instrument>, staves: seq<StaffData>, instrumentIndex: StaffData -> int): seq<Instrument>
  {
    seq(|instruments|, i requires 0 <= i < |instruments| => instruments[i].(nstaves := StavesOf(staves, instrumentIndex, i)))
  }

  /** countStaves: each instrument's staff count is the number of staff
    * records of the first system that belong to it. */
  method CountStaves(instruments: seq<Instrument>, staves: seq<StaffData>, instrumentIndex: StaffData -> int)
    returns (r: seq<Instrument>)
    ensures |r| == |instruments|
    ensures forall i :: 0 <= i < |r| ==> r[i] == instruments[i].(nstaves := StavesOf(staves, instrumentIndex, i))
    ensures r == CountedInstruments(instruments, staves, instrumentIndex)
  {
    r := instruments;
    var i := 0;
    while i < |instruments|
      invariant 0 <= i <= |instruments| && |r| == |instruments|
      invariant forall j :: 0 <= j < i ==> r[j] == instruments[j].(nstaves := StavesOf(staves, instrumentIndex, j))
      invariant forall j :: i <= j < |r| ==> r[j] == instruments[j]
    {
      var count := 0;
      var k := 0;
      while k < |staves|
        invariant 0 <= k <= |staves| && count == StavesOf(staves[..k], instrumentIndex, i)
      {
        assert staves[..k + 1][..k] == staves[..k];
        if instrumentIndex(staves[k]) == i {
          count := count + 1;
        }
        k := k + 1;
      }
      assert staves[..k] == staves;
      r := r[i := r[i].(nstaves := count)];
      i := i + 1;
    }
  }

  /** The staff counts of instruments 0 to n-1 added up. */
  function TotalStaves(staves: seq<StaffData>, instrumentIndex: StaffData -> int, n: nat): nat
  {
    if n == 0 then 0 else TotalStaves(staves, instrumentIndex, n - 1) + StavesOf(staves, instrumentIndex, n - 1)
  }

  /** The number of staff records whose instrument is one of 0 to n-1. */
  function StavesInRange(staves: seq<StaffData>, instrumentIndex: StaffData -> int, n: nat): nat
  {
    if |staves| == 0 then 0
    else StavesInRange(staves[..|staves| - 1], instrumentIndex, n) +
         (if 0 <= instrumentIndex(staves[|staves| - 1]) < n then 1 else 0)
  }

  lemma {:induction false} TotalStavesSnoc(staves: seq<StaffData>, x: StaffData, instrumentIndex: StaffData -> int, n: nat)
    ensures TotalStaves(staves + [x], instrumentIndex, n) ==
            TotalStaves(staves, instrumentIndex, n) + (if 0 <= instrumentIndex(x) < n then 1 else 0)
  {
    assert (staves + [x])[..|staves|] == staves;
    if n > 0 {
      TotalStavesSnoc(staves, x, instrumentIndex, n - 1);
    }
  }

  /** Every staff record whose instrument exists is counted exactly once. */
  lemma {:induction false} StaffCountsAddUp(staves: seq<StaffData>, instrumentIndex: StaffData -> int, n: nat)
    ensures TotalStaves(staves, instrumentIndex, n) == StavesInRange(staves, instrumentIndex, n)
    decreases |staves|
  {
    if |staves| == 0 {
      TotalStavesEmpty(instrumentIndex, n);
    } else {
      var init := staves[..|staves| - 1];
      assert staves == init + [staves[|staves| - 1]];
      StaffCountsAddUp(init, instrumentIndex, n);
      TotalStavesSnoc(init, staves[|staves| - 1], instrumentIndex, n);
    }
  }

  lemma {:induction false} TotalStavesEmpty(instrumentIndex: StaffData -> int, n: nat)
    ensures TotalStaves([], instrumentIndex, n) == 0
  {
    if n > 0 {
      TotalStavesEmpty(instrumentIndex, n - 1);
    }
  }

  // ------------------------------------------------------ addSpannerEnds

  predicate IsSpannerStart(e: Elem)
  {
    e.body.OrnamentBody? && (e.body.kind == SlurStart || e.body.kind == WedgeStart)
  }

  predicate IsSpannerStop(e: Elem)
  {
    e.body.OrnamentBody? && (e.body.kind == SlurStop || e.body.kind == WedgeStop)
  }

  /** The closing copy of a start ornament: a stop of the same spanner kind,
    * drawn at the start's second horizontal position. */
  function StopOf(e: Elem): Elem
    requires IsSpannerStart(e)
  {
    e.(xoffset := e.body.xoffset2, body := e.body.(kind := if e.body.kind == SlurStart then SlurStop else WedgeStop))
  }

  /** A closing ornament, the measure of its start and the measure it goes to. */
  datatype PendingEnd = PendingEnd(from: nat, to: nat, stop: Elem)

  /** The closing ornaments the starts among `es` (in measure `i`) call for, in element order. */
  function EndsIn(i: nat, es: seq<Elem>): seq<PendingEnd>
  {
    if |es| == 0 then []
    else
      var e := es[|es| - 1];
      EndsIn(i, es[..|es| - 1]) + (if IsSpannerStart(e) then [PendingEnd(i, i + e.body.alMezuro, StopOf(e))] else [])
  }

  /** The closing ornaments of all measures, in scan order. */
  function EndsOf(ms: seq<Measure>): seq<PendingEnd>
  {
    if |ms| == 0 then [] else EndsOf(ms[..|ms| - 1]) + EndsIn(|ms| - 1, ms[|ms| - 1].elems)
  }

  /** The closing ornaments bound for measure `j`, in scan order. */
  function EndsFor(ends: seq<PendingEnd>, j: nat): seq<Elem>
  {
    if |ends| == 0 then []
    else EndsFor(ends[..|ends| - 1], j) + (if ends[|ends| - 1].to == j then [ends[|ends| - 1].stop] else [])
  }

  /** The start measure of the first closing ornament, in scan order, whose
    * target lies at or beyond `n`. */
  function FirstBroken(ends: seq<PendingEnd>, n: nat): Option<nat>
  {
    if |ends| == 0 then None
    else match FirstBroken(ends[..|ends| - 1], n)
      case Some(i) => Some(i)
      case None => if ends[|ends| - 1].to >= n then Some(ends[|ends| - 1].from) else None
  }

  /** Every measure with the closing ornaments bound for it appended; an
    * error when a spanner ends beyond the last measure. */
  function SpannerEnds(ms: seq<Measure>): Result<seq<Measure>, DecodeError>
  {
    var ends := EndsOf(ms);
    match FirstBroken(ends, |ms|)
    case Some(i) => Err(SpannerEndOutOfRange(i))
    case None => Ok(seq(|ms|, j requires 0 <= j < |ms| => ms[j].(elems := ms[j].elems + EndsFor(ends, j))))
  }

  lemma EndsInSnoc(i: nat, es: seq<Elem>, e: Elem)
    ensures EndsIn(i, es + [e]) == EndsIn(i, es) + (if IsSpannerStart(e) then [PendingEnd(i, i + e.body.alMezuro, StopOf(e))] else [])
  {
    assert (es + [e])[..|es|] == es;
  }

  lemma EndsForSnoc(ends: seq<PendingEnd>, x: PendingEnd, j: nat)
    ensures EndsFor(ends + [x], j) == EndsFor(ends, j) + (if x.to == j then [x.stop] else [])
  {
    assert (ends + [x])[..|ends|] == ends;
  }

  lemma FirstBrokenSnoc(ends: seq<PendingEnd>, x: PendingEnd, n: nat)
    ensures FirstBroken(ends + [x], n) ==
            if FirstBroken(ends, n).Some? then FirstBroken(ends, n) else if x.to >= n then Some(x.from) else None
  {
    assert (ends + [x])[..|ends|] == ends;
  }

  /** addSpannerEnds: a first pass collects, per target measure, copies of
    * the slur and wedge starts turned into stops; a second pass appends
    * them. A target past the last measure aborts (vector::at). */
  method AddSpannerEnds(ms: seq<Measure>) returns (r: Result<seq<Measure>, DecodeError>)
    ensures r == SpannerEnds(ms)
  {
    var pending: seq<seq<Elem>> := seq(|ms|, j => []);
    ghost var ends: seq<PendingEnd> := [];
    var i := 0;
    while i < |ms|
      invariant 0 <= i <= |ms| && |pending| == |ms|
      invariant ends == EndsOf(ms[..i]) && FirstBroken(ends, |ms|) == None
      invariant forall j :: 0 <= j < |ms| ==> pending[j] == EndsFor(ends, j)
    {
      var broken;
      pending, broken, ends := CollectEnds(ms, i, pending, ends);
      if broken {
        return Err(SpannerEndOutOfRange(i));
      }
      i := i + 1;
    }
    assert ms[..i] == ms;
    var out := AppendEnds(ms, pending);
    assert out == seq(|ms|, j requires 0 <= j < |ms| => ms[j].(elems := ms[j].elems + EndsFor(ends, j)));
    r := Ok(out);
  }

  /** The first pass over the elements of measure `i`: each start's closing
    * copy is queued for its target measure. */
  method CollectEnds(ms: seq<Measure>, i: nat, pending: seq<seq<Elem>>, ghost ends: seq<PendingEnd>)
    returns (pending': seq<seq<Elem>>, broken: bool, ghost ends': seq<PendingEnd>)
    requires i < |ms| && |pending| == |ms|
    requires ends == EndsOf(ms[..i]) && FirstBroken(ends, |ms|) == None
    requires forall j :: 0 <= j < |ms| ==> pending[j] == EndsFor(ends, j)
    ensures broken ==> SpannerEnds(ms) == Err(SpannerEndOutOfRange(i))
    ensures !broken ==> ends' == EndsOf(ms[..i + 1]) && FirstBroken(ends', |ms|) == None && |pending'| == |ms|
    ensures !broken ==> forall j :: 0 <= j < |ms| ==> pending'[j] == EndsFor(ends', j)
  {
    pending', broken, ends' := pending, false, ends;
    var es := ms[i].elems;
    var k := 0;
    while k < |es|
      invariant 0 <= k <= |es| && |pending'| == |ms|
      invariant ends' == EndsOf(ms[..i]) + EndsIn(i, es[..k]) && FirstBroken(ends', |ms|) == None
      invariant forall j :: 0 <= j < |ms| ==> pending'[j] == EndsFor(ends', j)
    {
      var e := es[k];
      EndsStep(ms, i, k, ends');
      if IsSpannerStart(e) {
        var x := PendingEnd(i, i + e.body.alMezuro, StopOf(e));
        FirstBrokenSnoc(ends', x, |ms|);
        if x.to >= |ms| {
          SpannerEndsStopsAtFirstBroken(ms, i, k + 1);
          return pending', true, ends';
        }
        pending' := Enqueue(pending', ends', x);
        ends' := ends' + [x];
      }
      k := k + 1;
    }
    EndsOfNext(ms, i);
  }

  /** The scan of the first `k + 1` elements of measure `i` adds the closing
    * copy of element `k` when it is a start. */
  lemma EndsStep(ms: seq<Measure>, i: nat, k: nat, ends: seq<PendingEnd>)
    requires i < |ms| && k < |ms[i].elems| && ends == EndsOf(ms[..i]) + EndsIn(i, ms[i].elems[..k])
    ensures var e := ms[i].elems[k];
            EndsOf(ms[..i]) + EndsIn(i, ms[i].elems[..k + 1]) ==
              ends + (if IsSpannerStart(e) then [PendingEnd(i, i + e.body.alMezuro, StopOf(e))] else [])
  {
    var es := ms[i].elems;
    assert es[..k + 1] == es[..k] + [es[k]];
    EndsInSnoc(i, es[..k], es[k]);
  }

  lemma EndsOfNext(ms: seq<Measure>, i: nat)
    requires i < |ms|
    ensures EndsOf(ms[..i + 1]) == EndsOf(ms[..i]) + EndsIn(i, ms[i].elems[..|ms[i].elems|])
  {
    assert ms[..i + 1][..i] == ms[..i];
    assert ms[i].elems[..|ms[i].elems|] == ms[i].elems;
  }

  /** Queueing a closing ornament for its target measure. */
  method Enqueue(pending: seq<seq<Elem>>, ghost ends: seq<PendingEnd>, x: PendingEnd) returns (pending': seq<seq<Elem>>)
    requires x.to < |pending|
    requires forall j :: 0 <= j < |pending| ==> pending[j] == EndsFor(ends, j)
    ensures |pending'| == |pending|
    ensures forall j :: 0 <= j < |pending| ==> pending'[j] == EndsFor(ends + [x], j)
  {
    pending' := pending[x.to := pending[x.to] + [x.stop]];
    forall j | 0 <= j < |pending|
      ensures pending'[j] == EndsFor(ends + [x], j)
    {
      EndsForSnoc(ends, x, j);
    }
  }

  /** The second pass: every measure gets the closing ornaments queued for it. */
  method AppendEnds(ms: seq<Measure>, pending: seq<seq<Elem>>) returns (out: seq<Measure>)
    requires |pending| == |ms|
    ensures out == seq(|ms|, j requires 0 <= j < |ms| => ms[j].(elems := ms[j].elems + pending[j]))
  {
    out := [];
    var j := 0;
    while j < |ms|
      invariant 0 <= j <= |ms| && |out| == j
      invariant forall t :: 0 <= t < j ==> out[t] == ms[t].(elems := ms[t].elems + pending[t])
    {
      out := out + [ms[j].(elems := ms[j].elems + pending[j])];
      j := j + 1;
    }
  }

  /** Once a prefix of the scan has a broken end, the whole scan has the same first one. */
  lemma SpannerEndsStopsAtFirstBroken(ms: seq<Measure>, i: nat, k: nat)
    requires i < |ms| && k <= |ms[i].elems|
    requires FirstBroken(EndsOf(ms[..i]) + EndsIn(i, ms[i].elems[..k]), |ms|).Some?
    ensures FirstBroken(EndsOf(ms), |ms|) == FirstBroken(EndsOf(ms[..i]) + EndsIn(i, ms[i].elems[..k]), |ms|)
  {
    var pre := EndsOf(ms[..i]) + EndsIn(i, ms[i].elems[..k]);
    EndsOfExtends(ms, i, k);
    var rest := EndsOf(ms)[|pre|..];
    PrefixSplit(pre, EndsOf(ms));
    FirstBrokenOfPrefix(pre, rest, |ms|);
  }

  lemma PrefixSplit(a: seq<PendingEnd>, b: seq<PendingEnd>)
    requires a <= b
    ensures b == a + b[|a|..]
  {
  }

  lemma {:induction false} FirstBrokenOfPrefix(pre: seq<PendingEnd>, rest: seq<PendingEnd>, n: nat)
    requires FirstBroken(pre, n).Some?
    ensures FirstBroken(pre + rest, n) == FirstBroken(pre, n)
    decreases |rest|
  {
    if |rest| > 0 {
      var last := rest[|rest| - 1];
      var init := rest[..|rest| - 1];
      assert pre + rest == (pre + init) + [last];
      FirstBrokenOfPrefix(pre, init, n);
      FirstBrokenSnoc(pre + init, last, n);
    } else {
      assert pre + rest == pre;
    }
  }

  /** Scanning more elements only appends closing ornaments. */
  lemma {:induction false} EndsInExtends(i: nat, es: seq<Elem>, k: nat)
    requires k <= |es|
    ensures EndsIn(i, es[..k]) <= EndsIn(i, es)
    decreases |es| - k
  {
    if k == |es| {
      assert es[..k] == es;
    } else {
      EndsInExtends(i, es, k + 1);
      assert es[..k + 1] == es[..k] + [es[k]];
      EndsInSnoc(i, es[..k], es[k]);
    }
  }

  /** The scan up to element `k` of measure `i` is a prefix of the whole scan. */
  lemma {:induction false} EndsOfExtends(ms: seq<Measure>, i: nat, k: nat)
    requires i < |ms| && k <= |ms[i].elems|
    ensures EndsOf(ms[..i]) + EndsIn(i, ms[i].elems[..k]) <= EndsOf(ms)
    decreases |ms| - i
  {
    EndsInExtends(i, ms[i].elems, k);
    assert ms[..i + 1][..i] == ms[..i];
    assert EndsOf(ms[..i + 1]) == EndsOf(ms[..i]) + EndsIn(i, ms[i].elems);
    if i + 1 == |ms| {
      assert ms[..i + 1] == ms;
    } else {
      EndsOfExtends(ms, i + 1, 0);
      assert ms[i + 1].elems[..0] == [];
      assert EndsOf(ms[..i + 1]) + EndsIn(i + 1, []) == EndsOf(ms[..i + 1]);
    }
  }

  /** The closing ornament that the element at index `k` of measure `i` calls for. */
  predicate CallsFor(ms: seq<Measure>, x: PendingEnd, i: nat, k: nat)
  {
    i < |ms| && k < |ms[i].elems| && IsSpannerStart(ms[i].elems[k]) &&
    x == PendingEnd(i, i + ms[i].elems[k].body.alMezuro, StopOf(ms[i].elems[k]))
  }

  lemma {:induction false} EndsInMembers(i: nat, es: seq<Elem>, x: PendingEnd)
    ensures x in EndsIn(i, es) <==>
            exists k :: 0 <= k < |es| && IsSpannerStart(es[k]) && x == PendingEnd(i, i + es[k].body.alMezuro, StopOf(es[k]))
    decreases |es|
  {
    if |es| > 0 {
      var init := es[..|es| - 1];
      EndsInMembers(i, init, x);
      if x in EndsIn(i, init) {
        var k :| 0 <= k < |init| && IsSpannerStart(init[k]) && x == PendingEnd(i, i + init[k].body.alMezuro, StopOf(init[k]));
        assert es[k] == init[k];
      }
      if exists k :: 0 <= k < |es| && IsSpannerStart(es[k]) && x == PendingEnd(i, i + es[k].body.alMezuro, StopOf(es[k])) {
        var k :| 0 <= k < |es| && IsSpannerStart(es[k]) && x == PendingEnd(i, i + es[k].body.alMezuro, StopOf(es[k]));
        if k < |init| {
          assert init[k] == es[k];
        }
      }
    }
  }

  /** The closing ornaments collected are exactly those the starts call for. */
  lemma {:induction false} EndsOfMembers(ms: seq<Measure>, x: PendingEnd)
    ensures x in EndsOf(ms) <==> exists i: nat, k: nat :: CallsFor(ms, x, i, k)
    decreases |ms|
  {
    if |ms| > 0 {
      var n := |ms| - 1;
      var init := ms[..n];
      EndsOfMembers(init, x);
      EndsInMembers(n, ms[n].elems, x);
      if x in EndsOf(init) {
        var i: nat, k: nat :| CallsFor(init, x, i, k);
        assert init[i] == ms[i];
        assert CallsFor(ms, x, i, k);
      }
      if x in EndsIn(n, ms[n].elems) {
        var k :| 0 <= k < |ms[n].elems| && IsSpannerStart(ms[n].elems[k]) &&
                 x == PendingEnd(n, n + ms[n].elems[k].body.alMezuro, StopOf(ms[n].elems[k]));
        assert CallsFor(ms, x, n, k);
      }
      if exists i: nat, k: nat :: CallsFor(ms, x, i, k) {
        var i: nat, k: nat :| CallsFor(ms, x, i, k);
        if i < n {
          assert init[i] == ms[i];
          assert CallsFor(init, x, i, k);
        }
      }
    }
  }

  lemma {:induction false} FirstBrokenMembers(ends: seq<PendingEnd>, n: nat)
    ensures FirstBroken(ends, n).Some? <==> exists x :: x in ends && x.to >= n
    decreases |ends|
  {
    if |ends| > 0 {
      var init := ends[..|ends| - 1];
      FirstBrokenMembers(init, n);
      if exists x :: x in ends && x.to >= n {
        var x :| x in ends && x.to >= n;
        if x != ends[|ends| - 1] {
          assert x in init;
        }
      }
    }
  }

  lemma {:induction false} EndsForMembers(ends: seq<PendingEnd>, j: nat, e: Elem)
    ensures e in EndsFor(ends, j) <==> exists x :: x in ends && x.to == j && x.stop == e
    decreases |ends|
  {
    if |ends| > 0 {
      var init := ends[..|ends| - 1];
      EndsForMembers(init, j, e);
      if exists x :: x in ends && x.to == j && x.stop == e {
        var x :| x in ends && x.to == j && x.stop == e;
        if x != ends[|ends| - 1] {
          assert x in init;
        }
      }
    }
  }

  /** addSpannerEnds aborts exactly when some slur or wedge start points
    * beyond the last measure. */
  lemma SpannerEndsFailIff(ms: seq<Measure>)
    ensures SpannerEnds(ms).Err? <==>
            exists i, k :: 0 <= i < |ms| && 0 <= k < |ms[i].elems| && IsSpannerStart(ms[i].elems[k]) &&
                           i + ms[i].elems[k].body.alMezuro >= |ms|
  {
    var ends := EndsOf(ms);
    FirstBrokenMembers(ends, |ms|);
    if SpannerEnds(ms).Err? {
      var x :| x in ends && x.to >= |ms|;
      EndsOfMembers(ms, x);
      var i: nat, k: nat :| CallsFor(ms, x, i, k);
      assert IsSpannerStart(ms[i].elems[k]) && i + ms[i].elems[k].body.alMezuro >= |ms|;
    }
    if exists i, k :: 0 <= i < |ms| && 0 <= k < |ms[i].elems| && IsSpannerStart(ms[i].elems[k]) &&
                      i + ms[i].elems[k].body.alMezuro >= |ms| {
      var i, k :| 0 <= i < |ms| && 0 <= k < |ms[i].elems| && IsSpannerStart(ms[i].elems[k]) &&
                  i + ms[i].elems[k].body.alMezuro >= |ms|;
      var x := PendingEnd(i, i + ms[i].elems[k].body.alMezuro, StopOf(ms[i].elems[k]));
      assert CallsFor(ms, x, i, k);
      EndsOfMembers(ms, x);
    }
  }

  /** Each measure keeps its attributes and elements; what is appended are
    * stop ornaments, each closing a start somewhere in the piece. */
  lemma SpannerEndsOnlyAppendStops(ms: seq<Measure>, j: nat, e: Elem)
    requires SpannerEnds(ms).Ok? && j < |ms|
    ensures var out := SpannerEnds(ms).value;
            |out| == |ms| && out[j].(elems := ms[j].elems) == ms[j] &&
            out[j].elems[..|ms[j].elems|] == ms[j].elems &&
            (e in out[j].elems[|ms[j].elems|..] ==>
               IsSpannerStop(e) && exists i: nat, k: nat :: CallsFor(ms, PendingEnd(i, j, e), i, k))
  {
    var out := SpannerEnds(ms).value;
    var ends := EndsOf(ms);
    assert out[j].elems == ms[j].elems + EndsFor(ends, j);
    assert out[j].elems[|ms[j].elems|..] == EndsFor(ends, j);
    if e in EndsFor(ends, j) {
      EndsForMembers(ends, j, e);
      var x :| x in ends && x.to == j && x.stop == e;
      EndsOfMembers(ms, x);
      var i: nat, k: nat :| CallsFor(ms, x, i, k);
      assert CallsFor(ms, PendingEnd(i, j, e), i, k);
    }
  }

  /** Every slur or wedge start gets its stop in the measure it points to. */
  lemma EveryStartIsClosed(ms: seq<Measure>, i: nat, k: nat)
    requires SpannerEnds(ms).Ok? && i < |ms| && k < |ms[i].elems| && IsSpannerStart(ms[i].elems[k])
    ensures var j := i + ms[i].elems[k].body.alMezuro;
            j < |ms| && StopOf(ms[i].elems[k]) in SpannerEnds(ms).value[j].elems[|ms[j].elems|..]
  {
    SpannerEndsFailIff(ms);
    var j := i + ms[i].elems[k].body.alMezuro;
    var x := PendingEnd(i, j, StopOf(ms[i].elems[k]));
    assert CallsFor(ms, x, i, k);
    EndsOfMembers(ms, x);
    EndsForMembers(EndsOf(ms), j, x.stop);
    var out := SpannerEnds(ms).value;
    assert out[j].elems[|ms[j].elems|..] == EndsFor(EndsOf(ms), j);
  }

  /** After the pass, every slur or wedge start in any measure, old or
    * appended, is closed by its stop in the measure it points to. */
  lemma SpannerEndsCloseStarts(ms: seq<Measure>, i: nat, k: nat)
    requires SpannerEnds(ms).Ok?
    requires var out := SpannerEnds(ms).value;
             i < |out| && k < |out[i].elems| && IsSpannerStart(out[i].elems[k])
    ensures var out := SpannerEnds(ms).value;
            var j := i + out[i].elems[k].body.alMezuro;
            j < |out| && StopOf(out[i].elems[k]) in out[j].elems
  {
    var out := SpannerEnds(ms).value;
    var e := out[i].elems[k];
    SpannerEndsOnlyAppendStops(ms, i, e);
    assert k < |ms[i].elems|;  // what was appended are stops
    assert ms[i].elems[k] == e;
    EveryStartIsClosed(ms, i, k);
    var j := i + e.body.alMezuro;
    SpannerEndsOnlyAppendStops(ms, j, e);
    assert out[j].elems == out[j].elems[..|ms[j].elems|] + out[j].elems[|ms[j].elems|..];
  }
}
