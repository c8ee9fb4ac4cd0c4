/** Block tags: the four-byte magic strings that open the blocks of an Encore
  * file, and the scan that finds the next tag the decoder knows. */
module EncMagic {
  import opened Bytes
  import opened Wrappers
  import opened Cursors

  const LINE: seq<int> := [0x4C, 0x49, 0x4E, 0x45]  // "LINE"
  const MEAS: seq<int> := [0x4D, 0x45, 0x41, 0x53]  // "MEAS"
  const TITL: seq<int> := [0x54, 0x49, 0x54, 0x4C]  // "TITL"
  const TEXT: seq<int> := [0x54, 0x45, 0x58, 0x54]  // "TEXT"
  const SCOW: seq<int> := [0x53, 0x43, 0x4F, 0x57]  // "SCOW": little-endian file
  const SCO5: seq<int> := [0x53, 0x43, 0x4F, 0x35]  // "SCO5": big-endian file

  predicate IsDigit(c: int)
  {
    0x30 <= c <= 0x39
  }

  /** "TK" followed by two decimal digits: an instrument block. */
  predicate IsInstrumentMagic(m: seq<int>)
  {
    |m| >= 4 && m[0] == 0x54 && m[1] == 0x4B && IsDigit(m[2]) && IsDigit(m[3])
  }

  predicate IsKnownMagic(m: seq<int>)
  {
    |m| >= 4 && (m == LINE || m == MEAS || m == TITL || m == TEXT || IsInstrumentMagic(m))
  }

  /** A known tag starts at offset `r`. */
  predicate KnownAt(data: seq<byte>, r: nat)
  {
    r + 4 <= |data| && IsKnownMagic(data[r..r + 4])
  }

  /** The offset of the first known tag that starts at or after `p`. */
  function FirstKnownFrom(data: seq<byte>, p: nat): (r: Option<nat>)
    ensures r.Some? ==> p <= r.value && KnownAt(data, r.value)
    decreases |data| - p
  {
    if p + 4 > |data| then None
    else if KnownAt(data, p) then Some(p)
    else FirstKnownFrom(data, p + 1)
  }

  /** What findNextKnownMagic returns from position `p`, and where it leaves
    * the stream: just after the first known tag, or at the end with an empty
    * tag when there is none. */
  function NextMagic(data: seq<byte>, p: nat): (seq<int>, nat)
  {
    match FirstKnownFrom(data, p)
    case Some(q) => (data[q..q + 4], q + 4)
    case None => ([], |data|)
  }

  /** No window before the tag found is a known tag; when none is found, no
    * window at or after `p` is. */
  lemma {:induction false} FirstKnownIsFirst(data: seq<byte>, p: nat)
    ensures match FirstKnownFrom(data, p)
            case Some(q) => forall r :: p <= r < q ==> !KnownAt(data, r)
            case None => forall r :: p <= r ==> !KnownAt(data, r)
    decreases |data| - p
  {
    if p + 4 <= |data| && !KnownAt(data, p) {
      FirstKnownIsFirst(data, p + 1);
    }
  }

  /** Bytes that hold no known tag are skipped: the scan stops at the first
    * known tag after them, whatever follows it. */
  lemma SkipsUnknownBytes(garbage: seq<byte>, rest: seq<byte>)
    requires |rest| >= 4 && IsKnownMagic(rest[..4])
    requires forall r :: 0 <= r < |garbage| ==> !KnownAt(garbage + rest, r)
    ensures NextMagic(garbage + rest, 0) == (rest[..4], |garbage| + 4)
  {
    var data := garbage + rest;
    FirstKnownIsFirst(data, 0);
    assert data[|garbage|..|garbage| + 4] == rest[..4];
    assert KnownAt(data, |garbage|);
  }

  /** Up to four bytes from the current position, fewer when the data ends
    * first; the byte order is left as it is. */
  method ReadMagic(c: Cursor) returns (magic: seq<int>)
    requires c.Valid()
    modifies c`pos
    ensures c.Valid() && c.pos == Min(old(c.pos) + 4, |c.data|)
    ensures magic == c.data[old(c.pos)..c.pos]
  {
    ghost var p := c.pos;
    magic := [];
    var i := 0;
    while i < 4 && !c.AtEnd()
      invariant c.Valid() && 0 <= i <= 4 && c.pos == p + i
      invariant magic == c.data[p..c.pos]
    {
      var ch := c.ReadU8(c.pos);
      magic := magic + [ch];
      i := i + 1;
    }
  }

  /** findNextKnownMagic: read a four-byte window, then slide it one byte at a
    * time until it holds a known tag or the data ends. */
  method FindNextKnownMagic(c: Cursor) returns (magic: seq<int>)
    requires c.Valid()
    modifies c`pos
    ensures c.Valid() && (magic, c.pos) == NextMagic(c.data, old(c.pos))
  {
    ghost var p := c.pos;
    magic := ReadMagic(c);
    if |magic| < 4 {
      assert FirstKnownFrom(c.data, p) == None;
      magic := [];
      return;
    }
    while !IsKnownMagic(magic) && !c.AtEnd()
      invariant c.Valid() && p + 4 <= c.pos
      invariant magic == c.data[c.pos - 4..c.pos]
      invariant FirstKnownFrom(c.data, p) == FirstKnownFrom(c.data, c.pos - 4)
      decreases |c.data| - c.pos
    {
      magic := SlideWindow(c, magic);
    }
    if !IsKnownMagic(magic) {
      assert !KnownAt(c.data, c.pos - 4);
      magic := [];
    }
  }

  /** One step of the scan: drop the window's first byte and read the next. */
  method SlideWindow(c: Cursor, magic: seq<int>) returns (next: seq<int>)
    requires c.Valid() && 4 <= c.pos < |c.data| && magic == c.data[c.pos - 4..c.pos]
    requires !IsKnownMagic(magic)
    modifies c`pos
    ensures c.Valid() && c.pos == old(c.pos) + 1
    ensures next == c.data[c.pos - 4..c.pos]
    ensures FirstKnownFrom(c.data, c.pos - 4) == FirstKnownFrom(c.data, old(c.pos) - 4)
  {
    ghost var before := c.pos;
    var ch := c.ReadU8(c.pos);
    next := magic[1..] + [ch];
    SliceSnoc(c.data, before - 3, before);
  }

  lemma SliceSnoc(s: seq<byte>, i: nat, j: nat)
    requires i <= j < |s|
    ensures s[i..j + 1] == s[i..j] + [s[j]]
  {
  }
}
