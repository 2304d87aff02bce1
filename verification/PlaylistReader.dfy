/** A player's reading of the playlist body: it gets back the segments the playlist was written from. */
module PlaylistReader {
  import opened Wrappers
  import opened Fmp4
  import opened HlsPlaylist

  /** A segment as a player sees it: its parts, its duration and where it is. */
  datatype Entry = Entry(parts: seq<Part>, duration: real, url: string)

  /** Parts wait for the segment they belong to, whose address follows its duration. */
  function ReadBody(lines: seq<Line>, parts: seq<Part>): seq<Entry>
    decreases |lines|
  {
    if lines == [] then []
    else
      match lines[0]
      case PartLine(_, length, offset, independent) =>
        ReadBody(lines[1..], parts + [Part(Fragment(offset, length), independent)])
      case ExtInf(duration) =>
        if |lines| > 1 && lines[1].Uri? then [Entry(parts, duration, lines[1].url)] + ReadBody(lines[2..], [])
        else ReadBody(lines[1..], parts)
      case _ => ReadBody(lines[1..], parts)
  }

  /** The segments that have an address; four seconds when the duration is not known, no parts when the stored
      ranges cannot be read. */
  function Entries(segments: seq<Segment>): seq<Entry> {
    if segments == [] then []
    else
      var s := segments[0];
      (if s.url == "" then []
       else [Entry(if s.ranges.Some? then s.ranges.value else [], if s.duration.Some? then s.duration.value else 4.0, s.url)])
      + Entries(segments[1..])
  }

  lemma {:induction false} ReadParts(lines: seq<Line>, parts: seq<Part>, before: seq<Part>, rest: seq<Line>)
    requires |lines| == |parts|
    requires forall i :: 0 <= i < |lines| ==>
               lines[i].PartLine? && Part(Fragment(lines[i].offset, lines[i].length), lines[i].independent) == parts[i]
    ensures ReadBody(lines + rest, before) == ReadBody(rest, before + parts)
  {
    if lines == [] {
      assert lines + rest == rest && before + parts == before;
    } else {
      assert (lines + rest)[1..] == lines[1..] + rest;
      ReadParts(lines[1..], parts[1..], before + [parts[0]], rest);
      assert before + [parts[0]] + parts[1..] == before + parts;
    }
  }

  lemma ReadTail(duration: real, url: string, parts: seq<Part>, rest: seq<Line>)
    ensures ReadBody([ExtInf(duration), Uri(url)] + rest, parts) == [Entry(parts, duration, url)] + ReadBody(rest, [])
  {
    var lines := [ExtInf(duration), Uri(url)] + rest;
    assert lines[0] == ExtInf(duration) && lines[1] == Uri(url) && lines[2..] == rest;
  }

  lemma ReadSegment(s: Segment, rest: seq<Line>)
    ensures ReadBody(SegmentLines(s) + rest, []) == Entries([s]) + ReadBody(rest, [])
  {
    assert [s][1..] == [];
    if s.url == "" {
      assert SegmentLines(s) + rest == rest;
    } else {
      var duration := Duration(s);
      var parts := if s.ranges.Some? then s.ranges.value else [];
      var lines := if s.ranges.Some? then PartLines(parts, duration) else [];
      var tail := [ExtInf(duration), Uri(s.url)];
      assert SegmentLines(s) + rest == lines + (tail + rest);
      ReadParts(lines, parts, [], tail + rest);
      assert [] + parts == parts;
      ReadTail(duration, s.url, parts, rest);
    }
  }

  lemma Associate(a: seq<Line>, b: seq<Line>, c: seq<Line>)
    ensures a + b + c == a + (b + c)
  {
  }

  /** The lines from the front, as BodyLines has them from the back. */
  lemma {:induction false} BodyFromFront(segments: seq<Segment>)
    requires segments != []
    ensures BodyLines(segments) == SegmentLines(segments[0]) + BodyLines(segments[1..])
  {
    var n := |segments| - 1;
    if n == 0 {
      assert segments[..0] == [] && segments[1..] == [];
      assert [] + SegmentLines(segments[0]) == SegmentLines(segments[0]) + [];
    } else {
      BodyFromFront(segments[..n]);
      assert segments[..n][1..] == segments[1..][..n - 1];
      Associate(SegmentLines(segments[0]), BodyLines(segments[..n][1..]), SegmentLines(segments[n]));
    }
  }

  /** Reading the body gives back every segment that has an address, in order: its parts with offset, length and
      independence, its duration and its address. */
  lemma {:induction false} ReadingInvertsWriting(segments: seq<Segment>)
    ensures ReadBody(BodyLines(segments), []) == Entries(segments)
  {
    if segments != [] {
      ReadingInvertsWriting(segments[1..]);
      BodyFromFront(segments);
      ReadSegment(segments[0], BodyLines(segments[1..]));
      assert [segments[0]][1..] == [];
      assert Entries([segments[0]]) + Entries(segments[1..]) == Entries(segments);
    }
  }

  /** Every part of a segment lasts the same. */
  lemma PartsLastTheSame(parts: seq<Part>, duration: real)
    ensures forall i :: 0 <= i < |parts| ==> PartLines(parts, duration)[i].duration * |parts| as real == duration
  {
    forall i | 0 <= i < |parts| ensures PartLines(parts, duration)[i].duration * |parts| as real == duration {
      Share(duration, |parts| as real);
    }
  }
}
