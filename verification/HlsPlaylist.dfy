/** The low-latency HLS media playlist written from scanned fragments. */
module HlsPlaylist {
  import opened Wrappers
  import opened Fmp4

  /** A segment of the representation: its duration when the timeline gives one, its URL (possibly
      empty) and the fragment ranges stored beside it, if that file can be read. */
  datatype Segment = Segment(duration: Option<real>, url: string, ranges: Option<seq<Part>>)

  datatype Part = Part(fragment: Fragment, independent: bool)

  datatype Line =
    | Tag(text: string)
    | TargetDuration(seconds: int)
    | PartLine(duration: real, length: nat, offset: nat, independent: bool)
    | ExtInf(duration: real)
    | MapUri(file: string)
    | Uri(url: string)

  const DEFAULT_DURATION: real := 4.0

  function Duration(s: Segment): real {
    if s.duration.Some? then s.duration.value else DEFAULT_DURATION
  }

  /** Truncation toward zero. */
  function Truncate(x: real): int {
    if x >= 0.0 then x.Floor else -(-x).Floor
  }

  /** The fraction is cut off: what is left is no farther from zero, and less than one away. */
  lemma TruncateMeans(x: real)
    ensures x >= 0.0 ==> Truncate(x) as real <= x < Truncate(x) as real + 1.0
    ensures x < 0.0 ==> Truncate(x) as real - 1.0 < x <= Truncate(x) as real
    ensures x >= 0.0 ==> Truncate(x) >= 0
  {
  }

  /** The nearest integer, halves up: how a segment duration is rounded before it is compared with the
      target duration (section 4.3.3.1 of RFC 8216). */
  function Round(x: real): int {
    (x + 0.5).Floor
  }

  /** The lines of one segment. */
  function SegmentLines(s: Segment): seq<Line> {
    if s.url == "" then []
    else (if s.ranges.Some? then PartLines(s.ranges.value, Duration(s)) else []) + [ExtInf(Duration(s)), Uri(s.url)]
  }

  function PartLines(parts: seq<Part>, duration: real): (lines: seq<Line>)
    ensures |lines| == |parts|
  {
    seq(|parts|, i requires 0 <= i < |parts| =>
      PartLine(duration / |parts| as real, parts[i].fragment.length, parts[i].fragment.offset, parts[i].independent))
  }

  function BodyLines(segments: seq<Segment>): seq<Line> {
    if segments == [] then [] else BodyLines(segments[..|segments| - 1]) + SegmentLines(segments[|segments| - 1])
  }

  method MaxDuration(segments: seq<Segment>) returns (longest: real)
    requires segments != []
    ensures forall s :: s in segments ==> Duration(s) <= longest
    ensures exists s :: s in segments && Duration(s) == longest
  {
    longest := Duration(segments[0]);
    for i := 1 to |segments|
      invariant forall j :: 0 <= j < i ==> Duration(segments[j]) <= longest
      invariant exists j :: 0 <= j < i && Duration(segments[j]) == longest
    {
      if Duration(segments[i]) > longest {
        longest := Duration(segments[i]);
      }
    }
  }

  /** A target duration no rounded segment duration exceeds, and no longer than the longest segment
      truncated plus one second. */
  predicate IsTarget(target: int, segments: seq<Segment>) {
    && (forall s :: s in segments ==> Round(Duration(s)) <= target)
    && (exists s :: s in segments && target == Truncate(Duration(s)) + 1)
  }

  lemma TargetCovers(longest: real, d: real)
    requires d <= longest
    ensures Round(d) <= Truncate(longest) + 1
  {
    if longest < 0.0 {
      assert Truncate(longest) as real >= longest;
    }
  }

  /** Nothing is written for a representation without segments. */
  method GenerateMediaPlaylist(segments: seq<Segment>, init: Option<string>) returns (lines: seq<Line>, ghost target: int)
    ensures segments == [] ==> lines == []
    ensures segments != [] ==> IsTarget(target, segments)
    ensures segments != [] ==>
              lines == [Tag("EXTM3U"), Tag("EXT-X-VERSION:10"), TargetDuration(target), Tag("EXT-X-PLAYLIST-TYPE:VOD"),
                        Tag("EXT-X-INDEPENDENT-SEGMENTS"), Tag("EXT-X-PART-INF:PART-TARGET=1.0")]
                       + (if init.Some? then [MapUri(init.value)] else []) + BodyLines(segments) + [Tag("EXT-X-ENDLIST")]
  {
    target := 0;
    if segments == [] {
      return [], 0;
    }
    var longest := MaxDuration(segments);
    var seconds := Truncate(longest) + 1;
    target := seconds;
    forall s | s in segments ensures Round(Duration(s)) <= seconds {
      TargetCovers(longest, Duration(s));
    }
    lines := [Tag("EXTM3U"), Tag("EXT-X-VERSION:10"), TargetDuration(seconds), Tag("EXT-X-PLAYLIST-TYPE:VOD"),
              Tag("EXT-X-INDEPENDENT-SEGMENTS"), Tag("EXT-X-PART-INF:PART-TARGET=1.0")];
    if init.Some? {
      lines := lines + [MapUri(init.value)];
    }
    var body := EmitSegments(segments);
    lines := lines + body + [Tag("EXT-X-ENDLIST")];
  }

  method EmitSegments(segments: seq<Segment>) returns (lines: seq<Line>)
    ensures lines == BodyLines(segments)
  {
    lines := [];
    for i := 0 to |segments|
      invariant lines == BodyLines(segments[..i])
    {
      var s := segments[i];
      assert segments[..i + 1][..i] == segments[..i];
      if s.url != "" {
        if s.ranges.Some? && |s.ranges.value| > 0 {
          var parts := EmitParts(s.ranges.value, Duration(s));
          lines := lines + parts;
        }
        lines := lines + [ExtInf(Duration(s)), Uri(s.url)];
      }
    }
    assert segments[..|segments|] == segments;
  }

  method EmitParts(parts: seq<Part>, duration: real) returns (lines: seq<Line>)
    ensures lines == PartLines(parts, duration)
  {
    lines := [];
    for i := 0 to |parts|
      invariant lines == PartLines(parts, duration)[..i]
    {
      var part := parts[i];
      lines := lines + [PartLine(duration / |parts| as real, part.fragment.length, part.fragment.offset, part.independent)];
    }
  }

  // ---------- what the parts amount to ----------

  function TotalDuration(lines: seq<Line>): real {
    if lines == [] then 0.0
    else (if lines[0].PartLine? then lines[0].duration else 0.0) + TotalDuration(lines[1..])
  }

  lemma {:induction false} EqualParts(lines: seq<Line>, each: real)
    requires forall l :: l in lines ==> l.PartLine? && l.duration == each
    ensures TotalDuration(lines) == |lines| as real * each
  {
    if lines != [] {
      EqualParts(lines[1..], each);
      assert lines[0] in lines;
      assert |lines| as real * each == (|lines| - 1) as real * each + each;
    }
  }

  /** The byte ranges of the part lines, in order. */
  function Ranges(lines: seq<Line>): seq<Fragment> {
    if lines == [] then []
    else (if lines[0].PartLine? then [Fragment(lines[0].offset, lines[0].length)] else []) + Ranges(lines[1..])
  }

  /** The stored ranges of a scanned file, with the keyframe answer for each fragment. */
  function PartsOf(fragments: seq<Fragment>, independent: nat -> bool): (parts: seq<Part>)
    ensures |parts| == |fragments|
  {
    seq(|fragments|, i requires 0 <= i < |fragments| => Part(fragments[i], independent(i)))
  }

  lemma {:induction false} RangesOfParts(lines: seq<Line>, fragments: seq<Fragment>)
    requires |lines| == |fragments|
    requires forall i :: 0 <= i < |lines| ==>
               lines[i].PartLine? && Fragment(lines[i].offset, lines[i].length) == fragments[i]
    ensures Ranges(lines) == fragments
  {
    if lines != [] {
      RangesOfParts(lines[1..], fragments[1..]);
    }
  }

  /** The parts of a segment whose stored ranges are the scan of a file of moof/mdat pairs: their byte
      ranges (section 4.4.4.9 of draft-pantos-hls-rfc8216bis) run without a gap from the first moof to
      the end of the file, their durations sum to the segment's, and they fit the announced part target
      exactly when there are at least as many fragments as the segment has seconds. */
  lemma PartsTileTheSegment(lead: seq<Box>, pairs: seq<Box>, independent: nat -> bool, duration: real)
    requires (forall b :: b in lead ==> b.kind != MOOF) && OnlyPairs(pairs) && pairs != []
    ensures var parts := PartsOf(ScanBytes(Encode(lead + pairs)), independent);
            var lines := PartLines(parts, duration);
            && Tile(Ranges(lines), Total(lead), |Encode(lead + pairs)|)
            && TotalDuration(lines) == duration
            && ((forall l :: l in lines ==> l.duration <= 1.0) <==> duration <= |parts| as real)
  {
    var fragments := ScanBytes(Encode(lead + pairs));
    var parts := PartsOf(fragments, independent);
    var lines := PartLines(parts, duration);
    assert Tile(fragments, Total(lead), |Encode(lead + pairs)|) && |fragments| > 0 by {
      PairsTileTheFile(lead, pairs);
    }
    RangesOfParts(lines, fragments);
    SumOfParts(parts, duration);
  }

  lemma SumOfParts(parts: seq<Part>, duration: real)
    requires parts != []
    ensures var lines := PartLines(parts, duration);
            && TotalDuration(lines) == duration
            && ((forall l :: l in lines ==> l.duration <= 1.0) <==> duration <= |parts| as real)
  {
    var lines := PartLines(parts, duration);
    var n := |parts| as real;
    var each := duration / n;
    EqualParts(lines, each);
    Share(duration, n);
    assert lines[0] in lines;
  }

  lemma Share(duration: real, n: real)
    requires n > 0.0
    ensures n * (duration / n) == duration
    ensures duration / n <= 1.0 <==> duration <= n
  {
    var each := duration / n;
    assert n * each == duration;
    if each <= 1.0 {
      assert n * each <= n * 1.0;
    } else {
      assert n * each > n * 1.0;
    }
  }
}
