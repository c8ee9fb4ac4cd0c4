/** Links the file only implies: which notes a slur or wedge starts and stops
  * at, whether a tie starts or stops at a note, and a note's direction text.
  * A note or ornament is named by a handle: its measure and its index among
  * that measure's elements. */
module NoteConnectors {
  import opened Bytes
  import opened Wrappers
  import opened EncTypes
  import opened EncMagic
  import opened EncPost
  import opened EncRead

  type Handle = (int, int)

  const INT_MAX := 0x7FFF_FFFF

  predicate IsHandle(ms: seq<Measure>, h: Handle)
  {
    0 <= h.0 < |ms| && 0 <= h.1 < |ms[h.0].elems|
  }

  predicate IsNoteHandle(ms: seq<Measure>, h: Handle)
  {
    IsHandle(ms, h) && ms[h.0].elems[h.1].IsNote()
  }

  predicate IsOrnamentHandle(ms: seq<Measure>, h: Handle, kind: OrnamentKind)
  {
    IsHandle(ms, h) && ms[h.0].elems[h.1].IsOrnament() && ms[h.0].elems[h.1].body.kind == kind
  }

  /** Every slur and wedge ends within the piece, as it does in a decoded file. */
  predicate SpannersInRange(ms: seq<Measure>)
  {
    forall m, k :: 0 <= m < |ms| && 0 <= k < |ms[m].elems| && IsSpannerStart(ms[m].elems[k]) ==>
      m + ms[m].elems[k].body.alMezuro < |ms|
  }

  /** A decoded file can be handed to the connector: its spanners all end
    * within the piece. */
  lemma DecodedSpannersInRange(data: seq<byte>, acc: Accessors)
    requires DecodeFile(data, acc).Ok?
    ensures SpannersInRange(DecodeFile(data, acc).value.measures)
  {
    var ms := DecodeFile(data, acc).value.measures;
    forall m, k | 0 <= m < |ms| && 0 <= k < |ms[m].elems| && IsSpannerStart(ms[m].elems[k])
      ensures m + ms[m].elems[k].body.alMezuro < |ms|
    {
      EverySpannerClosed(data, acc, m, k);
    }
  }

  // ------------------------------------------------------------ searches

  predicate IsNoteOn(e: Elem, voice: int, staffIdx: int)
  {
    e.IsNote() && e.voice == voice && e.staffIdx == staffIdx
  }

  function Distance(a: int, b: int): nat
  {
    if a < b then b - a else a - b
  }

  /** The first element satisfying `p`. */
  function FirstWhere(es: seq<Elem>, p: Elem -> bool): (r: Option<nat>)
    ensures r.Some? ==> r.value < |es| && p(es[r.value])
  {
    if |es| == 0 then None
    else match FirstWhere(es[..|es| - 1], p)
      case Some(j) => Some(j)
      case None => if p(es[|es| - 1]) then Some(|es| - 1) else None
  }

  /** No element before the one found satisfies `p`; none at all when none is found. */
  lemma {:induction false} FirstWhereIsFirst(es: seq<Elem>, p: Elem -> bool)
    ensures var r := FirstWhere(es, p);
            (r.Some? ==> forall j :: 0 <= j < r.value ==> !p(es[j])) &&
            (r.None? ==> forall j :: 0 <= j < |es| ==> !p(es[j]))
  {
    if |es| > 0 {
      var init := es[..|es| - 1];
      FirstWhereIsFirst(init, p);
      assert forall j :: 0 <= j < |init| ==> init[j] == es[j];
    }
  }

  /** The last element satisfying `p`. */
  function LastWhere(es: seq<Elem>, p: Elem -> bool): (r: Option<nat>)
    ensures r.Some? ==> r.value < |es| && p(es[r.value])
  {
    if |es| == 0 then None
    else if p(es[|es| - 1]) then Some(|es| - 1)
    else LastWhere(es[..|es| - 1], p)
  }

  /** No element after the one found satisfies `p`; none at all when none is found. */
  lemma {:induction false} LastWhereIsLast(es: seq<Elem>, p: Elem -> bool)
    ensures var r := LastWhere(es, p);
            (r.Some? ==> forall j :: r.value < j < |es| ==> !p(es[j])) &&
            (r.None? ==> forall j :: 0 <= j < |es| ==> !p(es[j]))
  {
    if |es| > 0 && !p(es[|es| - 1]) {
      var init := es[..|es| - 1];
      LastWhereIsLast(init, p);
      assert forall j :: 0 <= j < |init| ==> init[j] == es[j];
    }
  }

  function NoteOn(voice: int, staffIdx: int): Elem -> bool
  {
    (e: Elem) => IsNoteOn(e, voice, staffIdx)
  }

  function NoteAfter(xoffset: int, voice: int, staffIdx: int): Elem -> bool
  {
    (e: Elem) => IsNoteOn(e, voice, staffIdx) && e.xoffset > xoffset
  }

  function NoteBefore(xoffset: int, voice: int, staffIdx: int): Elem -> bool
  {
    (e: Elem) => IsNoteOn(e, voice, staffIdx) && e.xoffset < xoffset
  }

  function EarlierNote(note: Elem): Elem -> bool
  {
    (e: Elem) => IsNoteOn(e, note.voice, note.staffIdx) && e.tick < note.tick
  }

  /** A tie at the same tick, voice, staff and horizontal position as the note. */
  predicate IsTieFor(e: Elem, note: Elem)
  {
    e.body.TieBody? && e.tick == note.tick && e.voice == note.voice && e.staffIdx == note.staffIdx &&
    e.xoffset == note.xoffset
  }

  /** A staff text or tempo mark at the same tick, voice and staff as the note. */
  function DirectionFor(note: Elem): Elem -> bool
  {
    (e: Elem) => e.IsOrnament() && e.tick == note.tick && e.voice == note.voice && e.staffIdx == note.staffIdx &&
         (e.body.kind == StaffText || e.body.kind == Tempo)
  }

  /** findClosestNote: the note of the voice and staff nearest to `xoffset`;
    * a later note replaces the best so far only when strictly nearer. */
  function ClosestIn(es: seq<Elem>, xoffset: int, voice: int, staffIdx: int): (r: Option<nat>)
    ensures r.Some? ==> r.value < |es| && IsNoteOn(es[r.value], voice, staffIdx)
  {
    if |es| == 0 then None
    else
      var r := ClosestIn(es[..|es| - 1], xoffset, voice, staffIdx);
      var e := es[|es| - 1];
      if IsNoteOn(e, voice, staffIdx) && (r.None? || Distance(xoffset, e.xoffset) < Distance(xoffset, es[r.value].xoffset))
      then Some(|es| - 1)
      else r
  }

  /** The closest note minimises the distance, and on equal distance it is
    * the earliest in file order; there is none only when no note matches. */
  lemma {:induction false} ClosestIsNearest(es: seq<Elem>, xoffset: int, voice: int, staffIdx: int)
    ensures ClosestIn(es, xoffset, voice, staffIdx).None? <==> forall j :: 0 <= j < |es| ==> !IsNoteOn(es[j], voice, staffIdx)
    ensures var r := ClosestIn(es, xoffset, voice, staffIdx);
            r.Some? ==> forall j :: 0 <= j < |es| && IsNoteOn(es[j], voice, staffIdx) ==>
                          Distance(xoffset, es[r.value].xoffset) <= Distance(xoffset, es[j].xoffset) &&
                          (j < r.value ==> Distance(xoffset, es[r.value].xoffset) < Distance(xoffset, es[j].xoffset))
  {
    if |es| > 0 {
      var init := es[..|es| - 1];
      ClosestIsNearest(init, xoffset, voice, staffIdx);
      assert forall j :: 0 <= j < |init| ==> init[j] == es[j];
    }
  }

  /** A note with the given fields and otherwise empty. */
  function NoteElem(tick: int, voice: nibble, staffIdx: int, xoffset: byte): Elem
  {
    Elem(tick, ELEM_NOTE, voice, 27, staffIdx, xoffset, NoteBody(0, 0, 0, 0, 0, 0, 0, 0, 0, 0, 0, 0, 0))
  }

  /** Notes at 8 and 12 are equally far from 10: the one first in the file wins. */
  lemma ClosestPrefersFileOrder()
    ensures ClosestIn([NoteElem(0, 0, 0, 8), NoteElem(0, 0, 0, 12)], 10, 0, 0) == Some(0)
  {
    assert [NoteElem(0, 0, 0, 8), NoteElem(0, 0, 0, 12)][..1] == [NoteElem(0, 0, 0, 8)];
    assert [NoteElem(0, 0, 0, 8)][..0] == [];
  }

  /** The last note before 25 in file order is the second one, at 10, even
    * though the first one, at 20, lies further right. */
  lemma LastBeforeFollowsFileOrder()
    ensures LastWhere([NoteElem(0, 0, 0, 20), NoteElem(0, 0, 0, 10)], NoteBefore(25, 0, 0)) == Some(1)
  {
  }

  // -------------------------------------------------------- slurs, wedges

  /** The four note-to-ornament maps. */
  datatype Links = Links(slurStarts: map<Handle, Handle>, slurStops: map<Handle, Handle>,
                         wedgeStarts: map<Handle, Handle>, wedgeStops: map<Handle, Handle>)

  const NoLinks := Links(map[], map[], map[], map[])

  predicate IsSpannerOfKind(ms: seq<Measure>, m: int, k: int, kind: OrnamentKind)
  {
    IsOrnamentHandle(ms, (m, k), kind) && m + ms[m].elems[k].body.alMezuro < |ms|
  }

  /** The start and stop note initSlur picks: the notes nearest to the
    * slur's two horizontal positions, in its own measure and in the measure
    * it ends in. */
  function SlurNotes(ms: seq<Measure>, m: int, k: int): (r: (Option<Handle>, Option<Handle>))
    requires IsSpannerOfKind(ms, m, k, SlurStart)
    ensures r.0.Some? ==> IsNoteHandle(ms, r.0.value) && r.0.value.0 == m
    ensures r.1.Some? ==> IsNoteHandle(ms, r.1.value) && r.1.value.0 == m + ms[m].elems[k].body.alMezuro
  {
    var o := ms[m].elems[k];
    var t := m + o.body.alMezuro;
    var start := ClosestIn(ms[m].elems, o.xoffset, o.voice, o.staffIdx);
    var stop := ClosestIn(ms[t].elems, o.body.xoffset2, o.voice, o.staffIdx);
    (if start.Some? then Some((m, start.value)) else None, if stop.Some? then Some((t, stop.value)) else None)
  }

  /** The start and stop note initWedge picks: the nearest note for the start,
    * and for the stop the last note, in file order, before the wedge's second
    * position. */
  function WedgeNotes(ms: seq<Measure>, m: int, k: int): (r: (Option<Handle>, Option<Handle>))
    requires IsSpannerOfKind(ms, m, k, WedgeStart)
    ensures r.0.Some? ==> IsNoteHandle(ms, r.0.value) && r.0.value.0 == m
    ensures r.1.Some? ==> IsNoteHandle(ms, r.1.value) && r.1.value.0 == m + ms[m].elems[k].body.alMezuro
  {
    var o := ms[m].elems[k];
    var t := m + o.body.alMezuro;
    var start := ClosestIn(ms[m].elems, o.xoffset, o.voice, o.staffIdx);
    var stop := LastWhere(ms[t].elems, NoteBefore(o.body.xoffset2, o.voice, o.staffIdx));
    assert stop.Some? ==> NoteBefore(o.body.xoffset2, o.voice, o.staffIdx)(ms[t].elems[stop.value]);
    (if start.Some? then Some((m, start.value)) else None, if stop.Some? then Some((t, stop.value)) else None)
  }

  /** Record a spanner at its start and stop notes unless either note already
    * has a spanner of that end (emplace keeps the first). */
  function Link(starts: map<Handle, Handle>, stops: map<Handle, Handle>, start: Handle, stop: Handle, o: Handle)
    : (map<Handle, Handle>, map<Handle, Handle>)
  {
    if start !in starts && stop !in stops then (starts[start := o], stops[stop := o]) else (starts, stops)
  }

  /** initSlur: the slur is recorded if both notes exist and differ. */
  function AddSlur(ms: seq<Measure>, links: Links, m: int, k: int): Links
    requires IsSpannerOfKind(ms, m, k, SlurStart)
  {
    var (start, stop) := SlurNotes(ms, m, k);
    if start.Some? && stop.Some? && start.value != stop.value then
      var (starts, stops) := Link(links.slurStarts, links.slurStops, start.value, stop.value, (m, k));
      links.(slurStarts := starts, slurStops := stops)
    else links
  }

  /** initWedge: the wedge is recorded if both notes exist; they may be the same. */
  function AddWedge(ms: seq<Measure>, links: Links, m: int, k: int): Links
    requires IsSpannerOfKind(ms, m, k, WedgeStart)
  {
    var (start, stop) := WedgeNotes(ms, m, k);
    if start.Some? && stop.Some? then
      var (starts, stops) := Link(links.wedgeStarts, links.wedgeStops, start.value, stop.value, (m, k));
      links.(wedgeStarts := starts, wedgeStops := stops)
    else links
  }

  function LinkOne(ms: seq<Measure>, links: Links, m: int, k: int): Links
    requires IsHandle(ms, (m, k)) && SpannersInRange(ms)
  {
    var e := ms[m].elems[k];
    if e.IsOrnament() && e.body.kind == SlurStart then AddSlur(ms, links, m, k)
    else if e.IsOrnament() && e.body.kind == WedgeStart then AddWedge(ms, links, m, k)
    else links
  }

  /** The links after the first `n` elements of measure `m`. */
  function LinkElems(ms: seq<Measure>, links: Links, m: int, n: nat): Links
    requires 0 <= m < |ms| && n <= |ms[m].elems| && SpannersInRange(ms)
  {
    if n == 0 then links else LinkOne(ms, LinkElems(ms, links, m, n - 1), m, n - 1)
  }

  /** The links after the first `n` measures: the constructor's scan. */
  function LinkMeasures(ms: seq<Measure>, n: nat): Links
    requires n <= |ms| && SpannersInRange(ms)
  {
    if n == 0 then NoLinks else LinkElems(ms, LinkMeasures(ms, n - 1), n - 1, |ms[n - 1].elems|)
  }

  /** Notes as keys and ornaments of the given kind as values. */
  predicate NotesToSpanners(ms: seq<Measure>, mp: map<Handle, Handle>, kind: OrnamentKind)
  {
    forall h :: h in mp ==> IsNoteHandle(ms, h) && IsOrnamentHandle(ms, mp[h], kind)
  }

  /** Every map has notes as keys and spanner ornaments of its kind as values. */
  predicate LinksTyped(ms: seq<Measure>, links: Links)
  {
    NotesToSpanners(ms, links.slurStarts, SlurStart) && NotesToSpanners(ms, links.slurStops, SlurStart) &&
    NotesToSpanners(ms, links.wedgeStarts, WedgeStart) && NotesToSpanners(ms, links.wedgeStops, WedgeStart)
  }

  /** A start map and a stop map that describe the same spanners: as many
    * entries in each, and the same ornaments. */
  predicate SameSpanners(starts: map<Handle, Handle>, stops: map<Handle, Handle>)
  {
    |starts| == |stops| && starts.Values == stops.Values
  }

  predicate LinksPaired(links: Links)
  {
    SameSpanners(links.slurStarts, links.slurStops) && SameSpanners(links.wedgeStarts, links.wedgeStops)
  }

  lemma InsertValues(m: map<Handle, Handle>, k: Handle, v: Handle)
    requires k !in m
    ensures m[k := v].Values == m.Values + {v} && |m[k := v]| == |m| + 1
  {
    forall x | x in m[k := v].Values
      ensures x in m.Values + {v}
    {
      var h :| h in m[k := v] && m[k := v][h] == x;
      if h != k {
        assert m[h] == x;
      }
    }
    forall x | x in m.Values + {v}
      ensures x in m[k := v].Values
    {
      if x != v {
        var h :| h in m && m[h] == x;
        assert h != k && m[k := v][h] == x;
      } else {
        assert m[k := v][k] == v;
      }
    }
  }

  lemma InsertNote(ms: seq<Measure>, mp: map<Handle, Handle>, kind: OrnamentKind, a: Handle, o: Handle)
    requires NotesToSpanners(ms, mp, kind) && IsNoteHandle(ms, a) && IsOrnamentHandle(ms, o, kind)
    ensures NotesToSpanners(ms, mp[a := o], kind)
  {
    forall h | h in mp[a := o]
      ensures IsNoteHandle(ms, h) && IsOrnamentHandle(ms, mp[a := o][h], kind)
    {
      if h != a {
        assert h in mp && mp[a := o][h] == mp[h];
      }
    }
  }

  /** Recording one spanner at two notes keeps notes as keys and spanners as values. */
  lemma LinkKeepsTyped(ms: seq<Measure>, starts: map<Handle, Handle>, stops: map<Handle, Handle>, kind: OrnamentKind,
                       a: Handle, b: Handle, o: Handle)
    requires NotesToSpanners(ms, starts, kind) && NotesToSpanners(ms, stops, kind)
    requires IsNoteHandle(ms, a) && IsNoteHandle(ms, b) && IsOrnamentHandle(ms, o, kind)
    ensures var r := Link(starts, stops, a, b, o);
            NotesToSpanners(ms, r.0, kind) && NotesToSpanners(ms, r.1, kind)
  {
    if a !in starts && b !in stops {
      InsertNote(ms, starts, kind, a, o);
      InsertNote(ms, stops, kind, b, o);
    }
  }

  /** Recording one spanner at two notes keeps the two maps describing the
    * same spanners; it either changes nothing or adds exactly one entry to
    * each. */
  lemma LinkKeepsSame(starts: map<Handle, Handle>, stops: map<Handle, Handle>, a: Handle, b: Handle, o: Handle)
    requires SameSpanners(starts, stops)
    ensures var r := Link(starts, stops, a, b, o);
            SameSpanners(r.0, r.1) &&
            (r == (starts, stops) || (|r.0| == |starts| + 1 && |r.1| == |stops| + 1 &&
                                      starts.Keys < r.0.Keys && stops.Keys < r.1.Keys))
  {
    if a !in starts && b !in stops {
      InsertValues(starts, a, o);
      InsertValues(stops, b, o);
      assert a in starts[a := o].Keys && b in stops[b := o].Keys;
    }
  }

  /** initSlur leaves the wedges alone and keeps notes as keys and slurs as values. */
  lemma AddSlurTyped(ms: seq<Measure>, links: Links, m: int, k: int)
    requires IsSpannerOfKind(ms, m, k, SlurStart) && LinksTyped(ms, links)
    ensures var r := AddSlur(ms, links, m, k);
            LinksTyped(ms, r) && r.wedgeStarts == links.wedgeStarts && r.wedgeStops == links.wedgeStops
  {
    var (start, stop) := SlurNotes(ms, m, k);
    if start.Some? && stop.Some? && start.value != stop.value {
      LinkKeepsTyped(ms, links.slurStarts, links.slurStops, SlurStart, start.value, stop.value, (m, k));
    }
  }

  /** initSlur either changes nothing or adds exactly one entry to each slur
    * map, and the two maps go on describing the same slurs. */
  lemma AddSlurPaired(ms: seq<Measure>, links: Links, m: int, k: int)
    requires IsSpannerOfKind(ms, m, k, SlurStart) && LinksPaired(links)
    ensures var r := AddSlur(ms, links, m, k);
            LinksPaired(r) &&
            (r == links || (|r.slurStarts| == |links.slurStarts| + 1 && |r.slurStops| == |links.slurStops| + 1 &&
                            links.slurStarts.Keys < r.slurStarts.Keys && links.slurStops.Keys < r.slurStops.Keys))
  {
    var (start, stop) := SlurNotes(ms, m, k);
    if start.Some? && stop.Some? && start.value != stop.value {
      LinkKeepsSame(links.slurStarts, links.slurStops, start.value, stop.value, (m, k));
    }
  }

  /** initWedge leaves the slurs alone and keeps notes as keys and wedges as values. */
  lemma AddWedgeTyped(ms: seq<Measure>, links: Links, m: int, k: int)
    requires IsSpannerOfKind(ms, m, k, WedgeStart) && LinksTyped(ms, links)
    ensures var r := AddWedge(ms, links, m, k);
            LinksTyped(ms, r) && r.slurStarts == links.slurStarts && r.slurStops == links.slurStops
  {
    var (start, stop) := WedgeNotes(ms, m, k);
    if start.Some? && stop.Some? {
      LinkKeepsTyped(ms, links.wedgeStarts, links.wedgeStops, WedgeStart, start.value, stop.value, (m, k));
    }
  }

  /** initWedge either changes nothing or adds exactly one entry to each
    * wedge map, and the two maps go on describing the same wedges. */
  lemma AddWedgePaired(ms: seq<Measure>, links: Links, m: int, k: int)
    requires IsSpannerOfKind(ms, m, k, WedgeStart) && LinksPaired(links)
    ensures var r := AddWedge(ms, links, m, k);
            LinksPaired(r) &&
            (r == links || (|r.wedgeStarts| == |links.wedgeStarts| + 1 && |r.wedgeStops| == |links.wedgeStops| + 1 &&
                            links.wedgeStarts.Keys < r.wedgeStarts.Keys && links.wedgeStops.Keys < r.wedgeStops.Keys))
  {
    var (start, stop) := WedgeNotes(ms, m, k);
    if start.Some? && stop.Some? {
      LinkKeepsSame(links.wedgeStarts, links.wedgeStops, start.value, stop.value, (m, k));
    }
  }

  lemma LinkOneTyped(ms: seq<Measure>, links: Links, m: int, k: int)
    requires IsHandle(ms, (m, k)) && SpannersInRange(ms) && LinksTyped(ms, links)
    ensures LinksTyped(ms, LinkOne(ms, links, m, k))
  {
    var e := ms[m].elems[k];
    if e.IsOrnament() && e.body.kind == SlurStart {
      AddSlurTyped(ms, links, m, k);
    } else if e.IsOrnament() && e.body.kind == WedgeStart {
      AddWedgeTyped(ms, links, m, k);
    }
  }

  lemma LinkOnePaired(ms: seq<Measure>, links: Links, m: int, k: int)
    requires IsHandle(ms, (m, k)) && SpannersInRange(ms) && LinksPaired(links)
    ensures LinksPaired(LinkOne(ms, links, m, k))
  {
    var e := ms[m].elems[k];
    if e.IsOrnament() && e.body.kind == SlurStart {
      AddSlurPaired(ms, links, m, k);
    } else if e.IsOrnament() && e.body.kind == WedgeStart {
      AddWedgePaired(ms, links, m, k);
    }
  }

  /** A property of the links that every element's step keeps holds after
    * the first `n` elements of measure `m`. */
  lemma {:induction false} LinkElemsKeep(ms: seq<Measure>, links: Links, m: int, n: nat, inv: Links -> bool)
    requires 0 <= m < |ms| && n <= |ms[m].elems| && SpannersInRange(ms) && inv(links)
    requires forall l, k :: 0 <= k < |ms[m].elems| && inv(l) ==> inv(LinkOne(ms, l, m, k))
    ensures inv(LinkElems(ms, links, m, n))
  {
    if n > 0 {
      LinkElemsKeep(ms, links, m, n - 1, inv);
    }
  }

  /** A property of the links that every element's step keeps holds after
    * the first `n` measures. */
  lemma {:induction false} LinkMeasuresKeep(ms: seq<Measure>, n: nat, inv: Links -> bool)
    requires n <= |ms| && SpannersInRange(ms) && inv(NoLinks)
    requires forall l, m, k :: 0 <= m < |ms| && 0 <= k < |ms[m].elems| && inv(l) ==> inv(LinkOne(ms, l, m, k))
    ensures inv(LinkMeasures(ms, n))
  {
    if n > 0 {
      LinkMeasuresKeep(ms, n - 1, inv);
      LinkElemsKeep(ms, LinkMeasures(ms, n - 1), n - 1, |ms[n - 1].elems|, inv);
    }
  }

  /** After the constructor's scan every map has notes as keys and spanner
    * ornaments of its kind as values. */
  lemma LinkMeasuresTyped(ms: seq<Measure>, n: nat)
    requires n <= |ms| && SpannersInRange(ms)
    ensures LinksTyped(ms, LinkMeasures(ms, n))
  {
    forall l, m, k | 0 <= m < |ms| && 0 <= k < |ms[m].elems| && LinksTyped(ms, l)
      ensures LinksTyped(ms, LinkOne(ms, l, m, k))
    {
      LinkOneTyped(ms, l, m, k);
    }
    LinkMeasuresKeep(ms, n, l => LinksTyped(ms, l));
  }

  /** After the constructor's scan each start map describes the same
    * spanners as its stop map. */
  lemma LinkMeasuresPaired(ms: seq<Measure>, n: nat)
    requires n <= |ms| && SpannersInRange(ms)
    ensures LinksPaired(LinkMeasures(ms, n))
  {
    forall l, m, k | 0 <= m < |ms| && 0 <= k < |ms[m].elems| && LinksPaired(l)
      ensures LinksPaired(LinkOne(ms, l, m, k))
    {
      LinkOnePaired(ms, l, m, k);
    }
    LinkMeasuresKeep(ms, n, LinksPaired);
  }

  // ---------------------------------------------------------------- ties

  /** tieStart: a tie element in the note's measure that matches it. */
  predicate TieStartsAt(ms: seq<Measure>, h: Handle)
    requires IsHandle(ms, h)
    ensures TieStartsAt(ms, h) ==> exists j :: 0 <= j < |ms[h.0].elems| && ms[h.0].elems[j].body.TieBody? &&
                                             ms[h.0].elems[j].xoffset == ms[h.0].elems[h.1].xoffset
  {
    exists j :: 0 <= j < |ms[h.0].elems| && IsTieFor(ms[h.0].elems[j], ms[h.0].elems[h.1])
  }

  /** tieStop: for a note after the measure's first tick, the last earlier
    * note of its voice and staff in the measure; for a note on the first
    * tick, the last note of its voice and staff in the previous measure; a
    * tie stops at the note when one starts at that note. */
  predicate TieStopsAt(ms: seq<Measure>, h: Handle)
    requires IsHandle(ms, h)
    ensures TieStopsAt(ms, h) ==>
              exists p: Handle :: IsHandle(ms, p) && (p.0 == h.0 || p.0 == h.0 - 1) && TieStartsAt(ms, p) &&
                IsNoteOn(ms[p.0].elems[p.1], ms[h.0].elems[h.1].voice, ms[h.0].elems[h.1].staffIdx)
  {
    var note := ms[h.0].elems[h.1];
    if note.tick > 0 then
      match LastWhere(ms[h.0].elems, EarlierNote(note))
      case Some(p) => TieStartsAt(ms, (h.0, p))
      case None => false
    else if h.0 > 0 then
      match LastWhere(ms[h.0 - 1].elems, NoteOn(note.voice, note.staffIdx))
      case Some(p) => TieStartsAt(ms, (h.0 - 1, p))
      case None => false
    else false
  }

  /** direction: switched off for big-endian (SCO5) files; otherwise the
    * first matching staff text or tempo mark in the note's measure. */
  function DirectionOf(ms: seq<Measure>, magic: seq<int>, h: Handle): (r: Option<Handle>)
    requires IsHandle(ms, h)
    ensures magic == SCO5 ==> r.None?
    ensures r.Some? ==> r.value.0 == h.0 && 0 <= r.value.1 < |ms[h.0].elems| &&
                        DirectionFor(ms[h.0].elems[h.1])(ms[h.0].elems[r.value.1])
  {
    if magic == SCO5 then None
    else match FirstWhere(ms[h.0].elems, DirectionFor(ms[h.0].elems[h.1]))
      case Some(j) => Some((h.0, j))
      case None => None
  }

  /** Each element's measure number: what initMeasureNumbers caches. */
  ghost predicate NumbersAll(ms: seq<Measure>, numbers: map<Handle, int>)
  {
    (forall h :: h in numbers <==> IsHandle(ms, h)) && forall h :: h in numbers ==> numbers[h] == h.0
  }

  // --------------------------------------------------------------- class

  class NoteConnector {
    const measures: seq<Measure>
    const magic: seq<int>
    var measureNr: map<Handle, int>
    var slurStarts: map<Handle, Handle>
    var slurStops: map<Handle, Handle>
    var wedgeStarts: map<Handle, Handle>
    var wedgeStops: map<Handle, Handle>

    function LinksOf(): Links
      reads this
    {
      Links(slurStarts, slurStops, wedgeStarts, wedgeStops)
    }

    ghost predicate Valid()
      reads this
    {
      SpannersInRange(measures) && NumbersAll(measures, measureNr)
    }

    /** The scan over all measures: every slur start and wedge start, in file
      * order, is linked to its notes. */
    constructor (ms: seq<Measure>, fileMagic: seq<int>)
      requires SpannersInRange(ms)
      ensures Valid() && measures == ms && magic == fileMagic
      ensures LinksOf() == LinkMeasures(ms, |ms|)
    {
      measures := ms;
      magic := fileMagic;
      measureNr := map[];
      slurStarts := map[];
      slurStops := map[];
      wedgeStarts := map[];
      wedgeStops := map[];
      new;
      InitMeasureNumbers();
      LinkAll();
    }

    /** The constructor's scan: every measure in order. */
    method LinkAll()
      requires SpannersInRange(measures) && LinksOf() == NoLinks
      modifies this`slurStarts, this`slurStops, this`wedgeStarts, this`wedgeStops
      ensures LinksOf() == LinkMeasures(measures, |measures|)
    {
      ghost var ms := measures;
      var m := 0;
      while m < |measures|
        invariant 0 <= m <= |ms|
        invariant LinksOf() == LinkMeasures(ms, m)
      {
        ghost var links := LinksOf();
        LinkMeasure(m);
        assert LinkMeasures(ms, m + 1) == LinkElems(ms, links, m, |ms[m].elems|);
        m := m + 1;
      }
    }

    /** The constructor's scan over one measure's elements. */
    method LinkMeasure(m: int)
      requires SpannersInRange(measures) && 0 <= m < |measures|
      modifies this`slurStarts, this`slurStops, this`wedgeStarts, this`wedgeStops
      ensures LinksOf() == LinkElems(measures, old(LinksOf()), m, |measures[m].elems|)
    {
      ghost var ms, start := measures, LinksOf();
      var k := 0;
      while k < |measures[m].elems|
        invariant 0 <= k <= |ms[m].elems|
        invariant LinksOf() == LinkElems(ms, start, m, k)
      {
        ghost var links := LinksOf();
        LinkElement(m, k);
        assert LinkElems(ms, start, m, k + 1) == LinkOne(ms, links, m, k);
        k := k + 1;
      }
    }

    method InitMeasureNumbers()
      modifies this`measureNr
      ensures NumbersAll(measures, measureNr)
    {
      measureNr := map[];
      var m := 0;
      while m < |measures|
        invariant 0 <= m <= |measures|
        invariant forall h :: h in measureNr <==> 0 <= h.0 < m && IsHandle(measures, h)
        invariant forall h :: h in measureNr ==> measureNr[h] == h.0
      {
        var k := 0;
        while k < |measures[m].elems|
          invariant 0 <= k <= |measures[m].elems|
          invariant forall h :: h in measureNr <==> (0 <= h.0 < m || (h.0 == m && h.1 < k)) && IsHandle(measures, h)
          invariant forall h :: h in measureNr ==> measureNr[h] == h.0
        {
          if (m, k) !in measureNr {
            measureNr := measureNr[(m, k) := m];
          }
          k := k + 1;
        }
        m := m + 1;
      }
    }

    /** One step of the constructor's scan: slur starts go to initSlur,
      * wedge starts to initWedge, other elements are passed over. */
    method LinkElement(m: int, k: int)
      requires SpannersInRange(measures) && IsHandle(measures, (m, k))
      modifies this`slurStarts, this`slurStops, this`wedgeStarts, this`wedgeStops
      ensures LinksOf() == LinkOne(measures, old(LinksOf()), m, k)
    {
      var e := measures[m].elems[k];
      if e.IsOrnament() && e.body.kind == SlurStart {
        InitSlur(m, k);
      } else if e.IsOrnament() && e.body.kind == WedgeStart {
        InitWedge(m, k);
      }
    }

    method InitSlur(m: int, k: int)
      requires IsSpannerOfKind(measures, m, k, SlurStart)
      modifies this`slurStarts, this`slurStops
      ensures LinksOf() == AddSlur(measures, old(LinksOf()), m, k)
    {
      var o := measures[m].elems[k];
      var t := m + o.body.alMezuro;
      var startNote := FindClosestNote(o.xoffset, o.voice, o.staffIdx, m);
      var stopNote := FindClosestNote(o.body.xoffset2, o.voice, o.staffIdx, t);
      if startNote.Some? && stopNote.Some? && (m, startNote.value) != (t, stopNote.value) {
        if (m, startNote.value) in slurStarts {
        } else if (t, stopNote.value) in slurStops {
        } else {
          slurStarts := slurStarts[(m, startNote.value) := (m, k)];
          slurStops := slurStops[(t, stopNote.value) := (m, k)];
        }
      }
    }

    method InitWedge(m: int, k: int)
      requires IsSpannerOfKind(measures, m, k, WedgeStart)
      modifies this`wedgeStarts, this`wedgeStops
      ensures LinksOf() == AddWedge(measures, old(LinksOf()), m, k)
    {
      var o := measures[m].elems[k];
      var t := m + o.body.alMezuro;
      var startNote := FindClosestNote(o.xoffset, o.voice, o.staffIdx, m);
      var stopNote := FindLastNoteBeforeXoffset(o.body.xoffset2, o.voice, o.staffIdx, t);
      if startNote.Some? && stopNote.Some? {
        if (m, startNote.value) in wedgeStarts {
        } else if (t, stopNote.value) in wedgeStops {
        } else {
          wedgeStarts := wedgeStarts[(m, startNote.value) := (m, k)];
          wedgeStops := wedgeStops[(t, stopNote.value) := (m, k)];
        }
      }
    }

    /** measureNumber: the cached measure of an element. */
    function MeasureNumber(h: Handle): (m: int)
      reads this
      requires Valid() && IsHandle(measures, h)
      ensures m == h.0
    {
      measureNr[h]
    }

    method FindClosestNote(xoffset: byte, voice: byte, staffIdx: int, m: int) returns (r: Option<nat>)
      requires 0 <= m < |measures|
      ensures r == ClosestIn(measures[m].elems, xoffset, voice, staffIdx)
    {
      var es := measures[m].elems;
      r := None;
      var minimum := INT_MAX;
      var k := 0;
      while k < |es|
        invariant 0 <= k <= |es| && r == ClosestIn(es[..k], xoffset, voice, staffIdx)
        invariant r.None? ==> minimum == INT_MAX
        invariant r.Some? ==> minimum == Distance(xoffset, es[r.value].xoffset)
      {
        assert es[..k + 1][..k] == es[..k];
        var e := es[k];
        if IsNoteOn(e, voice, staffIdx) {
          var candidate := Distance(xoffset, e.xoffset);
          if candidate < minimum {
            minimum := candidate;
            r := Some(k);
          }
        }
        k := k + 1;
      }
      assert es[..k] == es;
    }

    method FindFirstNoteAfterXoffset(xoffset: byte, voice: byte, staffIdx: int, m: int) returns (r: Option<nat>)
      requires 0 <= m < |measures|
      ensures r == FirstWhere(measures[m].elems, NoteAfter(xoffset, voice, staffIdx))
    {
      var es := measures[m].elems;
      var k := 0;
      while k < |es|
        invariant 0 <= k <= |es| && FirstWhere(es[..k], NoteAfter(xoffset, voice, staffIdx)) == None
      {
        assert es[..k + 1][..k] == es[..k];
        if IsNoteOn(es[k], voice, staffIdx) && es[k].xoffset > xoffset {
          assert FirstWhere(es[..k + 1], NoteAfter(xoffset, voice, staffIdx)) == Some(k);
          FirstWherePrefix(es, k + 1, NoteAfter(xoffset, voice, staffIdx));
          return Some(k);
        }
        k := k + 1;
      }
      assert es[..k] == es;
      return None;
    }

    method FindLastNote(note: Elem, m: int) returns (r: Option<nat>)
      requires 0 <= m < |measures|
      ensures r == LastWhere(measures[m].elems, NoteOn(note.voice, note.staffIdx))
    {
      r := FindLastWhere(measures[m].elems, NoteOn(note.voice, note.staffIdx));
    }

    method FindLastNoteBeforeXoffset(xoffset: byte, voice: byte, staffIdx: int, m: int) returns (r: Option<nat>)
      requires 0 <= m < |measures|
      ensures r == LastWhere(measures[m].elems, NoteBefore(xoffset, voice, staffIdx))
    {
      r := FindLastWhere(measures[m].elems, NoteBefore(xoffset, voice, staffIdx));
    }

    method FindPreviousNote(note: Elem, m: int) returns (r: Option<nat>)
      requires 0 <= m < |measures|
      ensures r == if note.tick > 0 then LastWhere(measures[m].elems, EarlierNote(note)) else None
    {
      r := None;
      if note.tick > 0 {
        r := FindLastWhere(measures[m].elems, EarlierNote(note));
      }
    }

    method TieStart(h: Handle) returns (b: bool)
      requires Valid() && IsHandle(measures, h)
      ensures b == TieStartsAt(measures, h)
    {
      var note := measures[h.0].elems[h.1];
      var es := measures[MeasureNumber(h)].elems;
      var k := 0;
      while k < |es|
        invariant 0 <= k <= |es| && forall j :: 0 <= j < k ==> !IsTieFor(es[j], note)
      {
        if IsTieFor(es[k], note) {
          return true;
        }
        k := k + 1;
      }
      return false;
    }

    method TieStop(h: Handle) returns (res: bool)
      requires Valid() && IsHandle(measures, h)
      ensures res == TieStopsAt(measures, h)
    {
      var note := measures[h.0].elems[h.1];
      var m := MeasureNumber(h);
      res := false;
      if note.tick > 0 {
        var previous := FindPreviousNote(note, m);
        if previous.Some? {
          res := TieStart((m, previous.value));
        }
      } else if m > 0 {
        var previous := FindLastNote(note, m - 1);
        if previous.Some? {
          res := TieStart((m - 1, previous.value));
        }
      }
    }

    method Direction(h: Handle) returns (r: Option<Handle>)
      requires Valid() && IsHandle(measures, h)
      ensures r == DirectionOf(measures, magic, h)
    {
      if magic == SCO5 {
        return None;
      }
      var note := measures[h.0].elems[h.1];
      var m := MeasureNumber(h);
      var es := measures[m].elems;
      var k := 0;
      while k < |es|
        invariant 0 <= k <= |es| && FirstWhere(es[..k], DirectionFor(note)) == None
      {
        assert es[..k + 1][..k] == es[..k];
        var e := es[k];
        if e.IsOrnament() && note.tick == e.tick && note.voice == e.voice && note.staffIdx == e.staffIdx &&
           (e.body.kind == StaffText || e.body.kind == Tempo) {
          assert FirstWhere(es[..k + 1], DirectionFor(note)) == Some(k);
          FirstWherePrefix(es, k + 1, DirectionFor(note));
          return Some((m, k));
        }
        k := k + 1;
      }
      assert es[..k] == es;
      return None;
    }

    /** slurStart: the slur ornament that starts at the note, if
      * any. Once the links are typed, only a note finds one, and what it
      * finds is a slur. */
    function SlurStartAt(h: Handle): (r: Option<Handle>)
      reads this
      ensures r.Some? <==> h in slurStarts
      ensures r.Some? && LinksTyped(measures, LinksOf()) ==> IsNoteHandle(measures, h) && IsOrnamentHandle(measures, r.value, SlurStart)
    {
      if h in slurStarts then Some(slurStarts[h]) else None
    }

    /** slurStop: the slur ornament that stops at the note, if
      * any. Once the links are typed, only a note finds one, and what it
      * finds is a slur. */
    function SlurStopAt(h: Handle): (r: Option<Handle>)
      reads this
      ensures r.Some? <==> h in slurStops
      ensures r.Some? && LinksTyped(measures, LinksOf()) ==> IsNoteHandle(measures, h) && IsOrnamentHandle(measures, r.value, SlurStart)
    {
      if h in slurStops then Some(slurStops[h]) else None
    }

    /** wedgeStart: the wedge ornament that starts at the note, if
      * any. Once the links are typed, only a note finds one, and what it
      * finds is a wedge. */
    function WedgeStartAt(h: Handle): (r: Option<Handle>)
      reads this
      ensures r.Some? <==> h in wedgeStarts
      ensures r.Some? && LinksTyped(measures, LinksOf()) ==> IsNoteHandle(measures, h) && IsOrnamentHandle(measures, r.value, WedgeStart)
    {
      if h in wedgeStarts then Some(wedgeStarts[h]) else None
    }

    /** wedgeStop: the wedge ornament that stops at the note, if
      * any. Once the links are typed, only a note finds one, and what it
      * finds is a wedge. */
    function WedgeStopAt(h: Handle): (r: Option<Handle>)
      reads this
      ensures r.Some? <==> h in wedgeStops
      ensures r.Some? && LinksTyped(measures, LinksOf()) ==> IsNoteHandle(measures, h) && IsOrnamentHandle(measures, r.value, WedgeStart)
    {
      if h in wedgeStops then Some(wedgeStops[h]) else None
    }
  }

  /** A search for the last element satisfying `p`, keeping the latest match. */
  method FindLastWhere(es: seq<Elem>, p: Elem -> bool) returns (r: Option<nat>)
    ensures r == LastWhere(es, p)
  {
    r := None;
    var k := 0;
    while k < |es|
      invariant 0 <= k <= |es| && r == LastWhere(es[..k], p)
    {
      assert es[..k + 1][..k] == es[..k];
      if p(es[k]) {
        r := Some(k);
      }
      k := k + 1;
    }
    assert es[..k] == es;
  }

  /** A match found in a prefix is the first match of the whole sequence. */
  lemma {:induction false} FirstWherePrefix(es: seq<Elem>, n: nat, p: Elem -> bool)
    requires n <= |es| && FirstWhere(es[..n], p).Some?
    ensures FirstWhere(es, p) == FirstWhere(es[..n], p)
  {
    if n == |es| {
      assert es[..n] == es;
    } else {
      var init := es[..|es| - 1];
      assert init[..n] == es[..n];
      FirstWherePrefix(init, n, p);
    }
  }

  /** Every slur or wedge found at a start note also has a stop note, and the
    * other way round. */
  lemma StartsAndStopsMatch(c: NoteConnector, h: Handle)
    requires c.Valid() && c.LinksOf() == LinkMeasures(c.measures, |c.measures|)
    ensures c.SlurStartAt(h).Some? ==> exists g :: c.SlurStopAt(g) == c.SlurStartAt(h)
    ensures c.SlurStopAt(h).Some? ==> exists g :: c.SlurStartAt(g) == c.SlurStopAt(h)
    ensures c.WedgeStartAt(h).Some? ==> exists g :: c.WedgeStopAt(g) == c.WedgeStartAt(h)
    ensures c.WedgeStopAt(h).Some? ==> exists g :: c.WedgeStartAt(g) == c.WedgeStopAt(h)
  {
    LinkMeasuresPaired(c.measures, |c.measures|);
    assert LinksPaired(c.LinksOf());
    if h in c.slurStarts {
      assert c.slurStarts[h] in c.slurStops.Values;
      var g :| g in c.slurStops && c.slurStops[g] == c.slurStarts[h];
      assert c.SlurStopAt(g) == c.SlurStartAt(h);
    }
    if h in c.slurStops {
      assert c.slurStops[h] in c.slurStarts.Values;
      var g :| g in c.slurStarts && c.slurStarts[g] == c.slurStops[h];
      assert c.SlurStartAt(g) == c.SlurStopAt(h);
    }
    if h in c.wedgeStarts {
      assert c.wedgeStarts[h] in c.wedgeStops.Values;
      var g :| g in c.wedgeStops && c.wedgeStops[g] == c.wedgeStarts[h];
      assert c.WedgeStopAt(g) == c.WedgeStartAt(h);
    }
    if h in c.wedgeStops {
      assert c.wedgeStops[h] in c.wedgeStarts.Values;
      var g :| g in c.wedgeStarts && c.wedgeStarts[g] == c.wedgeStops[h];
      assert c.WedgeStartAt(g) == c.WedgeStopAt(h);
    }
  }
}
