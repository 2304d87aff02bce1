/** The fragment scanner for fragmented MP4 files (box structure: section 4.2 of ISO/IEC 14496-12). */
module Fmp4 {
  import opened Wrappers
  import opened ByteStrings

  // Four-character codes, as the big-endian word they make.
  const MOOF: nat := 0x6d6f6f66
  const MDAT: nat := 0x6d646174
  const TRAF: nat := 0x74726166
  const TRUN: nat := 0x7472756e

  datatype Header = Header(kind: nat, size: nat, offset: nat)

  datatype Fragment = Fragment(offset: nat, length: nat)

  /** Big-endian words. */
  function U32(b: Bytes, p: nat): nat
    requires p + 4 <= |b|
  {
    var b0: int, b1: int, b2: int, b3: int := b[p], b[p + 1], b[p + 2], b[p + 3];
    ((b0 * 256 + b1) * 256 + b2) * 256 + b3
  }

  function U64(b: Bytes, p: nat): nat
    requires p + 8 <= |b|
  {
    U32(b, p) * 0x1_0000_0000 + U32(b, p + 4)
  }

  /** At most n bytes from pos on: what reading a file there returns. */
  function Peek(data: Bytes, pos: nat, n: nat): Bytes {
    if pos >= |data| then [] else if pos + n <= |data| then data[pos..pos + n] else data[pos..]
  }

  /** The header a box at pos has: a 32-bit size, or 1 followed after the type by a 64-bit size. */
  function HeaderAt(data: Bytes, pos: nat): Option<Header> {
    if pos + 8 > |data| then None
    else if U32(data, pos) != 1 then Some(Header(U32(data, pos + 4), U32(data, pos), pos))
    else if pos + 16 > |data| then None
    else Some(Header(U32(data, pos + 4), U64(data, pos + 8), pos))
  }

  /** The scan reads a file only through its box headers. */
  type Headers = nat -> Option<Header>

  function HeadersOf(data: Bytes): Headers {
    (pos: nat) => HeaderAt(data, pos)
  }

  predicate IsMdat(h: Option<Header>) {
    h.Some? && h.value.kind == MDAT
  }

  /** What the scan does with the box at a position: stop, step over it, or take a moof/mdat pair. */
  datatype Found = Stop | Skip(next: nat) | Pair(fragment: Fragment, next: nat)

  function FoundAt(headers: Headers, pos: nat): (r: Found)
    ensures !r.Stop? ==> r.next >= pos + 8
  {
    var h := headers(pos);
    if h.None? || h.value.size < 8 then Stop
    else
      var next := pos + h.value.size;
      if h.value.kind == MOOF && IsMdat(headers(next)) then
        var mdat := headers(next).value;
        Pair(Fragment(pos, h.value.size + mdat.size), next + mdat.size)
      else Skip(next)
  }

  /** The scan of a file of `end` bytes as a function of its headers. */
  function Scan(headers: Headers, end: nat, pos: nat): seq<Fragment>
    decreases if pos <= end then end - pos else 0
  {
    if pos + 8 > end then []
    else
      match FoundAt(headers, pos)
      case Stop => []
      case Skip(next) => Scan(headers, end, next)
      case Pair(fragment, next) => [fragment] + Scan(headers, end, next)
  }

  function ScanBytes(data: Bytes): seq<Fragment> {
    Scan(HeadersOf(data), |data|, 0)
  }

  // ---------- the scanner as it runs ----------

  /** A file opened for binary reading: seeking past the end is allowed, reading there returns nothing. */
  class ByteFile {
    const data: Bytes
    var pos: nat

    constructor (data: Bytes)
      ensures this.data == data && pos == 0
    {
      this.data := data;
      pos := 0;
    }

    method Read(n: nat) returns (b: Bytes)
      modifies this
      ensures b == Peek(data, old(pos), n) && pos == old(pos) + |b|
    {
      b := Peek(data, pos, n);
      pos := pos + |b|;
    }

    method Seek(p: nat)
      modifies this
      ensures pos == p
    {
      pos := p;
    }
  }

  method ReadBoxHeader(f: ByteFile) returns (h: Option<Header>)
    modifies f
    ensures h == HeaderAt(f.data, old(f.pos))
    ensures h.Some? ==> old(f.pos) + 8 <= f.pos <= |f.data|
  {
    var offset := f.pos;
    var data := f.Read(8);
    if |data| < 8 {
      return None;
    }
    assert forall k :: 0 <= k < 8 ==> data[k] == f.data[offset + k];
    var size := U32(data, 0);
    if size == 1 {
      var extended := f.Read(8);
      if |extended| < 8 {
        return None;
      }
      assert forall k :: 0 <= k < 8 ==> extended[k] == f.data[offset + 8 + k];
      size := U64(extended, 0);
      f.Seek(offset + 16);
    }
    return Some(Header(U32(data, 4), size, offset));
  }

  /** The first box of the wanted type among those that start in pos..end. */
  function ChildFrom(headers: Headers, fileEnd: nat, pos: nat, end: nat, kind: nat): Option<Header>
    decreases if pos <= fileEnd then fileEnd - pos else 0
  {
    if pos >= end || pos + 8 > fileEnd then None
    else
      var h := headers(pos);
      if h.None? || h.value.size < 8 then None
      else if h.value.kind == kind then h
      else ChildFrom(headers, fileEnd, pos + h.value.size, end, kind)
  }

  method FindChild(f: ByteFile, end: nat, kind: nat) returns (h: Option<Header>)
    modifies f
    ensures h == ChildFrom(HeadersOf(f.data), |f.data|, old(f.pos), end, kind)
  {
    while f.pos < end
      invariant ChildFrom(HeadersOf(f.data), |f.data|, f.pos, end, kind)
             == ChildFrom(HeadersOf(f.data), |f.data|, old(f.pos), end, kind)
      decreases if f.pos <= |f.data| then |f.data| - f.pos else 0
    {
      var start := f.pos;
      h := ReadBoxHeader(f);
      if h.None? || h.value.size < 8 {
        return None;
      }
      if h.value.kind == kind {
        return;
      }
      f.Seek(start + h.value.size);
    }
    return None;
  }

  /** What the sample flags say, when they say anything: those of the track run, and the defaults in the
      header of the track fragment. */
  datatype Decoded = Decoded(ofTrun: Option<bool>, ofTfhd: Option<bool>)

  /** The track run's answer, if there is a track run that has one; else the track fragment's, if there is a
      track fragment that has one; else only the first fragment starts with a keyframe. */
  function KeyframeOf(headers: Headers, fileEnd: nat, offset: nat, size: nat, index: nat, decoded: Decoded): bool {
    var traf := ChildFrom(headers, fileEnd, offset + 8, offset + size, TRAF);
    if traf.None? then index == 0
    else
      var trun := ChildFrom(headers, fileEnd, traf.value.offset + 8, traf.value.offset + traf.value.size, TRUN);
      if trun.Some? && decoded.ofTrun.Some? then decoded.ofTrun.value
      else if decoded.ofTfhd.Some? then decoded.ofTfhd.value
      else index == 0
  }

  /** The keyframe answer for the moof at a fragment's offset. */
  function Independent(headers: Headers, fileEnd: nat, fragment: Fragment, index: nat, decoded: Decoded): bool {
    var moof := headers(fragment.offset);
    KeyframeOf(headers, fileEnd, fragment.offset, if moof.Some? then moof.value.size else 0, index, decoded)
  }

  /** Whether a fragment starts with a keyframe.  Kept here are the search for the boxes, the order of the
      methods and that the cursor comes back on every path; what flags mean is `decoded`. */
  method HasKeyframe(f: ByteFile, moofOffset: nat, moofSize: nat, index: nat, decoded: Decoded) returns (keyframe: bool)
    modifies f
    ensures f.pos == old(f.pos)
    ensures keyframe == KeyframeOf(HeadersOf(f.data), |f.data|, moofOffset, moofSize, index, decoded)
  {
    var saved := f.pos;
    keyframe := index == 0;
    f.Seek(moofOffset + 8);
    var traf := FindChild(f, moofOffset + moofSize, TRAF);
    if traf.Some? {
      f.Seek(traf.value.offset + 8);
      var trun := FindChild(f, traf.value.offset + traf.value.size, TRUN);
      if trun.Some? && decoded.ofTrun.Some? {
        keyframe := decoded.ofTrun.value;
      } else if decoded.ofTfhd.Some? {
        keyframe := decoded.ofTfhd.value;
      }
    }
    f.Seek(saved);
  }

  /** One turn of the scanning loop. */
  method ParseNext(f: ByteFile, index: nat, decoded: Decoded) returns (found: Found, keyframe: bool)
    modifies f
    ensures found == FoundAt(HeadersOf(f.data), old(f.pos))
    ensures found.Pair? ==> keyframe == Independent(HeadersOf(f.data), |f.data|, found.fragment, index, decoded)
    ensures !found.Stop? ==> old(f.pos) + 8 <= |f.data| && f.pos == found.next
  {
    keyframe := false;
    var h := ReadBoxHeader(f);
    if h.None? || h.value.size < 8 {
      return Stop, false;
    }
    var next := h.value.offset + h.value.size;
    f.Seek(next);
    if h.value.kind == MOOF {
      var mdat := ReadBoxHeader(f);
      if mdat.Some? && mdat.value.kind == MDAT {
        keyframe := HasKeyframe(f, h.value.offset, h.value.size, index, decoded);
        found := Pair(Fragment(h.value.offset, h.value.size + mdat.value.size), mdat.value.offset + mdat.value.size);
        f.Seek(mdat.value.offset + mdat.value.size);
        return;
      }
      f.Seek(next);
    }
    found := Skip(next);
  }

  /** Each fragment is marked as its own headers, its place and its sample flags say. */
  ghost predicate AreMarked(headers: Headers, end: nat, fragments: seq<Fragment>, independent: seq<bool>, decoded: nat -> Decoded) {
    && |independent| == |fragments|
    && forall i :: 0 <= i < |independent| ==> independent[i] == Independent(headers, end, fragments[i], i, decoded(i))
  }

  lemma OneMoreMarked(headers: Headers, end: nat, fragments: seq<Fragment>, independent: seq<bool>, decoded: nat -> Decoded, f: Fragment, mark: bool)
    requires AreMarked(headers, end, fragments, independent, decoded)
    requires mark == Independent(headers, end, f, |fragments|, decoded(|fragments|))
    ensures AreMarked(headers, end, fragments + [f], independent + [mark], decoded)
  {
  }

  method ParseFragments(f: ByteFile, decoded: nat -> Decoded) returns (fragments: seq<Fragment>, independent: seq<bool>)
    requires f.pos == 0
    modifies f
    ensures fragments == ScanBytes(f.data)
    ensures AreMarked(HeadersOf(f.data), |f.data|, fragments, independent, decoded)
  {
    fragments, independent := [], [];
    ghost var headers, end := HeadersOf(f.data), |f.data|;
    NothingFound(headers, end);
    while true
      invariant FoundUpTo(headers, end, fragments, f.pos) && AreMarked(headers, end, fragments, independent, decoded)
      decreases if f.pos <= |f.data| then |f.data| - f.pos else 0
    {
      ghost var pos := f.pos;
      var found, keyframe := ParseNext(f, |fragments|, decoded(|fragments|));
      FoundNext(headers, end, fragments, pos, found);
      if found.Stop? {
        break;
      }
      if found.Pair? {
        OneMoreMarked(headers, end, fragments, independent, decoded, found.fragment, keyframe);
        fragments, independent := fragments + [found.fragment], independent + [keyframe];
      }
    }
  }

  /** The fragments before a position; the scan from there finds the others. */
  ghost predicate FoundUpTo(headers: Headers, end: nat, fragments: seq<Fragment>, pos: nat) {
    fragments + Scan(headers, end, pos) == Scan(headers, end, 0)
  }

  lemma NothingFound(headers: Headers, end: nat)
    ensures FoundUpTo(headers, end, [], 0)
  {
  }

  lemma Moved<T>(done: seq<T>, moved: seq<T>, rest: seq<T>, tail: seq<T>, whole: seq<T>)
    requires done + tail == whole && tail == moved + rest
    ensures done + moved + rest == whole
  {
  }

  lemma FoundNext(headers: Headers, end: nat, fragments: seq<Fragment>, pos: nat, found: Found)
    requires FoundUpTo(headers, end, fragments, pos)
    requires found == FoundAt(headers, pos) && (!found.Stop? ==> pos + 8 <= end)
    ensures found.Stop? ==> fragments == Scan(headers, end, 0)
    ensures found.Pair? ==> FoundUpTo(headers, end, fragments + [found.fragment], found.next)
    ensures found.Skip? ==> FoundUpTo(headers, end, fragments, found.next)
  {
    ScanStep(headers, end, pos, found);
    if found.Pair? {
      Moved(fragments, [found.fragment], Scan(headers, end, found.next), Scan(headers, end, pos), Scan(headers, end, 0));
    }
  }

  lemma ScanStep(headers: Headers, end: nat, pos: nat, found: Found)
    requires found == FoundAt(headers, pos) && (!found.Stop? ==> pos + 8 <= end)
    ensures Scan(headers, end, pos) ==
            if found.Stop? then []
            else if found.Pair? then [found.fragment] + Scan(headers, end, found.next)
            else Scan(headers, end, found.next)
  {
  }

  // ---------- any bytes at all ----------

  function End(f: Fragment): nat {
    f.offset + f.length
  }

  /** A fragment is a moof header with an mdat header right behind the moof, and spans both boxes. */
  predicate IsPair(headers: Headers, f: Fragment) {
    var moof := headers(f.offset);
    && moof.Some? && moof.value.kind == MOOF && moof.value.size >= 8
    && IsMdat(headers(f.offset + moof.value.size))
    && f.length == moof.value.size + headers(f.offset + moof.value.size).value.size
  }

  /** On arbitrary bytes every fragment is a real moof/mdat pair, and fragments come in file order
      without overlapping. */
  lemma FragmentsAreOrderedPairs(data: Bytes)
    ensures var fragments := ScanBytes(data);
            && (forall f :: f in fragments ==> IsPair(HeadersOf(data), f))
            && InOrder(fragments, 0)
  {
    OrderedFrom(HeadersOf(data), |data|, 0);
  }

  predicate InOrder(fragments: seq<Fragment>, from: nat) {
    && (forall i :: 0 <= i < |fragments| ==> fragments[i].offset >= from)
    && (forall i, j :: 0 <= i < j < |fragments| ==> End(fragments[i]) <= fragments[j].offset)
  }

  lemma {:induction false} OrderedFrom(headers: Headers, end: nat, pos: nat)
    ensures forall f :: f in Scan(headers, end, pos) ==> IsPair(headers, f)
    ensures InOrder(Scan(headers, end, pos), pos)
    decreases if pos <= end then end - pos else 0
  {
    if pos + 8 <= end {
      var found := FoundAt(headers, pos);
      if found.Skip? {
        OrderedFrom(headers, end, found.next);
      } else if found.Pair? {
        OrderedFrom(headers, end, found.next);
        var rest := Scan(headers, end, found.next);
        assert Scan(headers, end, pos) == [found.fragment] + rest;
        assert IsPair(headers, found.fragment) && End(found.fragment) == found.next;
      }
    }
  }

  // ---------- well-formed files ----------

  /** A box; a wide one stores its size in 64 bits. */
  datatype RawBox = Box(kind: nat, payload: Bytes, wide: bool)

  type Box = b: RawBox | WellFormed(b) witness Box(0, [], false)

  function Word32(v: nat): (b: Bytes)
    requires v < 0x1_0000_0000
    ensures |b| == 4 && U32(b, 0) == v
  {
    var v1 := v / 256;
    var v2 := v1 / 256;
    [v2 / 256, v2 % 256, v1 % 256, v % 256]
  }

  function Word64(v: nat): (b: Bytes)
    requires v < 0x1_0000_0000_0000_0000
    ensures |b| == 8 && U64(b, 0) == v
  {
    Word32(v / 0x1_0000_0000) + Word32(v % 0x1_0000_0000)
  }

  function Length(b: RawBox): nat {
    (if b.wide then 16 else 8) + |b.payload|
  }

  predicate WellFormed(b: RawBox) {
    b.kind < 0x1_0000_0000 && Length(b) < if b.wide then 0x1_0000_0000_0000_0000 else 0x1_0000_0000
  }

  function EncodeBox(b: Box): (e: Bytes)
    ensures |e| == Length(b)
  {
    if b.wide then Word32(1) + Word32(b.kind) + Word64(Length(b)) + b.payload
    else Word32(Length(b)) + Word32(b.kind) + b.payload
  }

  function Total(boxes: seq<Box>): nat {
    if boxes == [] then 0 else Length(boxes[0]) + Total(boxes[1..])
  }

  function Encode(boxes: seq<Box>): (e: Bytes)
    ensures |e| == Total(boxes)
  {
    if boxes == [] then [] else EncodeBox(boxes[0]) + Encode(boxes[1..])
  }

  /** The moofs immediately followed by an mdat, by position in the box list. */
  function Pairs(boxes: seq<Box>, offset: nat): seq<Fragment> {
    if |boxes| < 2 then []
    else
      (if boxes[0].kind == MOOF && boxes[1].kind == MDAT
       then [Fragment(offset, Length(boxes[0]) + Length(boxes[1]))] else [])
      + Pairs(boxes[1..], offset + Length(boxes[0]))
  }

  lemma HeaderOfBox(b: Box)
    ensures HeaderAt(EncodeBox(b), 0) == Some(Header(b.kind, Length(b), 0))
  {
    var e := EncodeBox(b);
    var word := Word32(if b.wide then 1 else Length(b));
    assert e[..4] == word;
    SameWord(e, 0, word, 0);
    assert e[4..8] == Word32(b.kind);
    SameWord(e, 4, Word32(b.kind), 0);
    if b.wide {
      var long := Word64(Length(b));
      assert e[8..16] == long;
      assert e[8..12] == long[0..4] && e[12..16] == long[4..8];
      SameWord(e, 8, long, 0);
      SameWord(e, 12, long, 4);
    }
  }

  lemma SameWord(a: Bytes, p: nat, b: Bytes, q: nat)
    requires p + 4 <= |a| && q + 4 <= |b| && a[p..p + 4] == b[q..q + 4]
    ensures U32(a, p) == U32(b, q)
  {
    var s, u := a[p..p + 4], b[q..q + 4];
    assert s[0] == u[0] && s[1] == u[1] && s[2] == u[2] && s[3] == u[3];
  }

  /** Each box's header is where the lengths of the boxes before it put it, and the last box ends the file. */
  predicate Laid(headers: Headers, end: nat, pos: nat, boxes: seq<Box>)
    decreases |boxes|
  {
    if boxes == [] then pos == end
    else
      && pos + 8 <= end
      && headers(pos) == Some(Header(boxes[0].kind, Length(boxes[0]), pos))
      && Laid(headers, end, pos + Length(boxes[0]), boxes[1..])
  }

  lemma HeaderBehind(e: Bytes, rest: Bytes, p: nat)
    requires HeaderAt(rest, p).Some?
    ensures HeaderAt(e + rest, |e| + p) == Some(HeaderAt(rest, p).value.(offset := |e| + p))
  {
    assert forall k :: 0 <= k < |rest| ==> (e + rest)[|e| + k] == rest[k];
  }

  lemma HeaderInFront(e: Bytes, rest: Bytes)
    requires HeaderAt(e, 0).Some?
    ensures HeaderAt(e + rest, 0) == HeaderAt(e, 0)
  {
  }

  lemma {:induction false} LaidBehind(e: Bytes, rest: Bytes, p: nat, boxes: seq<Box>)
    requires Laid(HeadersOf(rest), |rest|, p, boxes)
    ensures Laid(HeadersOf(e + rest), |e + rest|, |e| + p, boxes)
    decreases |boxes|
  {
    if boxes != [] {
      HeaderBehind(e, rest, p);
      LaidBehind(e, rest, p + Length(boxes[0]), boxes[1..]);
    }
  }

  lemma LaidInFront(e: Bytes, rest: Bytes, b: Box, boxes: seq<Box>)
    requires |e| == Length(b) && HeaderAt(e, 0) == Some(Header(b.kind, Length(b), 0))
    requires Laid(HeadersOf(rest), |rest|, 0, boxes)
    ensures Laid(HeadersOf(e + rest), |e + rest|, 0, [b] + boxes)
  {
    HeaderInFront(e, rest);
    LaidBehind(e, rest, 0, boxes);
    assert ([b] + boxes)[1..] == boxes;
  }

  lemma {:induction false} EncodedIsLaid(boxes: seq<Box>)
    ensures Laid(HeadersOf(Encode(boxes)), |Encode(boxes)|, 0, boxes)
  {
    if boxes != [] {
      EncodedIsLaid(boxes[1..]);
      HeaderOfBox(boxes[0]);
      LaidInFront(EncodeBox(boxes[0]), Encode(boxes[1..]), boxes[0], boxes[1..]);
      assert boxes == [boxes[0]] + boxes[1..];
    }
  }

  lemma {:induction false} LaidIsScanned(headers: Headers, end: nat, pos: nat, boxes: seq<Box>)
    requires Laid(headers, end, pos, boxes)
    requires headers(end).None?
    ensures Scan(headers, end, pos) == Pairs(boxes, pos)
    decreases |boxes|
  {
    if boxes != [] {
      var next := pos + Length(boxes[0]);
      if |boxes| > 1 && boxes[0].kind == MOOF && boxes[1].kind == MDAT {
        LaidPair(headers, end, pos, boxes);
        LaidIsScanned(headers, end, next + Length(boxes[1]), boxes[2..]);
        PairsAfterMdat(boxes[1..], next);
        assert boxes[1..][1..] == boxes[2..];
      } else {
        assert FoundAt(headers, pos) == Skip(next);
        LaidIsScanned(headers, end, next, boxes[1..]);
      }
    }
  }

  lemma LaidPair(headers: Headers, end: nat, pos: nat, boxes: seq<Box>)
    requires Laid(headers, end, pos, boxes) && |boxes| > 1 && boxes[0].kind == MOOF && boxes[1].kind == MDAT
    ensures var next := pos + Length(boxes[0]) + Length(boxes[1]);
            && Laid(headers, end, next, boxes[2..])
            && Scan(headers, end, pos) == [Fragment(pos, next - pos)] + Scan(headers, end, next)
  {
    assert boxes[1..][1..] == boxes[2..];
  }

  lemma PairsAfterMdat(boxes: seq<Box>, offset: nat)
    requires boxes != [] && boxes[0].kind == MDAT
    ensures Pairs(boxes, offset) == Pairs(boxes[1..], offset + Length(boxes[0]))
  {
  }

  /** The scan of a well-formed file is exact: the fragments are the moofs immediately followed by an
      mdat, with true offsets and lengths. */
  lemma ScanIsExact(boxes: seq<Box>)
    ensures ScanBytes(Encode(boxes)) == Pairs(boxes, 0)
  {
    var data := Encode(boxes);
    EncodedIsLaid(boxes);
    LaidIsScanned(HeadersOf(data), |data|, 0, boxes);
  }

  // ---------- a segment of pairs ----------

  predicate OnlyPairs(boxes: seq<Box>) {
    |boxes| % 2 == 0
    && forall i :: 0 <= i < |boxes| ==> boxes[i].kind == if i % 2 == 0 then MOOF else MDAT
  }

  /** The ranges follow one another without a gap from `start` to `end`. */
  predicate Tile(fragments: seq<Fragment>, start: nat, end: nat) {
    if fragments == [] then start == end
    else fragments[0].offset == start && Tile(fragments[1..], End(fragments[0]), end)
  }

  /** When nothing but moof/mdat pairs follows the leading boxes, the fragments tile the file from the
      first moof to its end, one fragment per pair. */
  lemma PairsTileTheFile(lead: seq<Box>, pairs: seq<Box>)
    requires forall b :: b in lead ==> b.kind != MOOF
    requires OnlyPairs(pairs)
    ensures var data := Encode(lead + pairs);
            && Tile(ScanBytes(data), Total(lead), |data|)
            && |ScanBytes(data)| == |pairs| / 2
  {
    var boxes := lead + pairs;
    var data := Encode(boxes);
    var fragments := ScanBytes(data);
    assert fragments == Pairs(boxes, 0) by {
      ScanIsExact(boxes);
    }
    assert Tile(fragments, Total(lead), Total(boxes)) && |fragments| == |pairs| / 2 by {
      PairsTile(fragments, lead, pairs, 0);
    }
  }

  lemma {:induction false} PairsTile(fragments: seq<Fragment>, lead: seq<Box>, pairs: seq<Box>, offset: nat)
    requires fragments == Pairs(lead + pairs, offset)
    requires forall b :: b in lead ==> b.kind != MOOF
    requires OnlyPairs(pairs)
    ensures Tile(fragments, offset + Total(lead), offset + Total(lead + pairs))
    ensures |fragments| == |pairs| / 2
  {
    if lead == [] {
      assert lead + pairs == pairs;
      TilePairs(fragments, pairs, offset);
    } else {
      assert lead[0] in lead;
      assert (lead + pairs)[1..] == lead[1..] + pairs;
      assert Pairs(lead + pairs, offset) == Pairs((lead + pairs)[1..], offset + Length(lead[0]));
      PairsTile(fragments, lead[1..], pairs, offset + Length(lead[0]));
    }
  }

  lemma {:induction false} TilePairs(fragments: seq<Fragment>, pairs: seq<Box>, offset: nat)
    requires OnlyPairs(pairs) && fragments == Pairs(pairs, offset)
    ensures Tile(fragments, offset, offset + Total(pairs))
    ensures |fragments| == |pairs| / 2
  {
    if pairs != [] {
      var rest := pairs[2..];
      assert pairs[1..][1..] == rest;
      PairsAfterMdat(pairs[1..], offset + Length(pairs[0]));
      assert fragments[1..] == Pairs(rest, offset + Length(pairs[0]) + Length(pairs[1]));
      TilePairs(fragments[1..], rest, offset + Length(pairs[0]) + Length(pairs[1]));
      assert Total(pairs[1..]) == Length(pairs[1]) + Total(rest);
    }
  }
}
