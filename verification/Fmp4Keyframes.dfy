/** The keyframe answer for a moof, from the boxes laid out in it. */
module Fmp4Keyframes {
  import opened Wrappers
  import opened Fmp4

  // ---------- the boxes inside a box ----------

  ghost predicate NoneOf(boxes: seq<Box>, kind: nat) {
    forall b :: b in boxes ==> b.kind != kind
  }

  /** A search that starts at the first of some boxes finds the first of the wanted kind. */
  lemma {:induction false} ChildIsFirst(headers: Headers, fileEnd: nat, pos: nat, end: nat, before: seq<Box>, wanted: Box, after: seq<Box>)
    requires Laid(headers, end, pos, before + [wanted] + after) && end <= fileEnd && NoneOf(before, wanted.kind)
    ensures ChildFrom(headers, fileEnd, pos, end, wanted.kind) == Some(Header(wanted.kind, Length(wanted), pos + Total(before)))
    decreases |before|
  {
    var boxes := before + [wanted] + after;
    if before != [] {
      assert before[0] in before && boxes[0] == before[0];
      assert boxes[1..] == before[1..] + [wanted] + after;
      ChildIsFirst(headers, fileEnd, pos + Length(before[0]), end, before[1..], wanted, after);
    }
  }

  lemma {:induction false} NoChild(headers: Headers, fileEnd: nat, pos: nat, end: nat, boxes: seq<Box>, kind: nat)
    requires Laid(headers, end, pos, boxes) && end <= fileEnd && NoneOf(boxes, kind)
    ensures ChildFrom(headers, fileEnd, pos, end, kind) == None
    decreases |boxes|
  {
    if boxes != [] {
      assert boxes[0] in boxes;
      NoChild(headers, fileEnd, pos + Length(boxes[0]), end, boxes[1..], kind);
    }
  }

  // ---------- the answer ----------

  /** The boxes inside a box at `at` that has a 32-bit size. */
  ghost predicate Opened(headers: Headers, fileEnd: nat, at: nat, b: Box, boxes: seq<Box>) {
    at + Length(b) <= fileEnd && Laid(headers, at + Length(b), at + 8, boxes)
  }

  /** A moof without a track fragment: the first fragment of a file starts with a keyframe, the others do not. */
  lemma WithoutTraf(headers: Headers, fileEnd: nat, offset: nat, moof: Box, boxes: seq<Box>, index: nat, decoded: Decoded)
    requires Opened(headers, fileEnd, offset, moof, boxes) && NoneOf(boxes, TRAF)
    ensures KeyframeOf(headers, fileEnd, offset, Length(moof), index, decoded) == (index == 0)
  {
    NoChild(headers, fileEnd, offset + 8, offset + Length(moof), boxes, TRAF);
  }

  /** With a track run in the first track fragment, the run's answer comes first, then the track fragment's, then
      the position. */
  lemma WithTrun(headers: Headers, fileEnd: nat, offset: nat, moof: Box, before: seq<Box>, traf: Box, after: seq<Box>,
                 a: seq<Box>, trun: Box, b: seq<Box>, index: nat, decoded: Decoded)
    requires Opened(headers, fileEnd, offset, moof, before + [traf] + after) && NoneOf(before, TRAF) && traf.kind == TRAF
    requires Opened(headers, fileEnd, offset + 8 + Total(before), traf, a + [trun] + b) && NoneOf(a, TRUN) && trun.kind == TRUN
    ensures KeyframeOf(headers, fileEnd, offset, Length(moof), index, decoded)
            == match (decoded.ofTrun, decoded.ofTfhd)
               case (Some(run), _) => run
               case (None, Some(default)) => default
               case (None, None) => index == 0
  {
    var at := offset + 8 + Total(before);
    ChildIsFirst(headers, fileEnd, offset + 8, offset + Length(moof), before, traf, after);
    ChildIsFirst(headers, fileEnd, at + 8, at + Length(traf), a, trun, b);
  }

  /** Without a track run nothing is asked of one. */
  lemma WithoutTrun(headers: Headers, fileEnd: nat, offset: nat, moof: Box, before: seq<Box>, traf: Box, after: seq<Box>,
                    inner: seq<Box>, index: nat, decoded: Decoded)
    requires Opened(headers, fileEnd, offset, moof, before + [traf] + after) && NoneOf(before, TRAF) && traf.kind == TRAF
    requires Opened(headers, fileEnd, offset + 8 + Total(before), traf, inner) && NoneOf(inner, TRUN)
    ensures KeyframeOf(headers, fileEnd, offset, Length(moof), index, decoded)
            == match decoded.ofTfhd
               case Some(default) => default
               case None => index == 0
  {
    var at := offset + 8 + Total(before);
    ChildIsFirst(headers, fileEnd, offset + 8, offset + Length(moof), before, traf, after);
    NoChild(headers, fileEnd, at + 8, at + Length(traf), inner, TRUN);
  }
}
