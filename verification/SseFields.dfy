/** Frames line by line: what the reader takes from one, and what the writer puts into one. */
module SseFields {
  import opened Wrappers
  import opened ByteStrings
  import opened SseFraming

  // ---------- lines ----------

  /** The lines put back together, a newline between each two. */
  function Joined(lines: seq<Bytes>): Bytes {
    if lines == [] then [] else if |lines| == 1 then lines[0] else lines[0] + [10] + Joined(lines[1..])
  }

  /** Splitting into lines loses nothing and leaves no newline in a line. */
  lemma {:induction false} LinesAreJoined(b: Bytes)
    ensures Joined(Lines(b)) == b
    ensures forall i :: 0 <= i < |Lines(b)| ==> NoNewline(Lines(b)[i])
    decreases |b|
  {
    if b != [] {
      LinesAreJoined(b[1..]);
      var rest := Lines(b[1..]);
      assert b == [b[0]] + b[1..];
      if b[0] == NL {
        assert ([[]] + rest)[1..] == rest;
        NewlineInFront(rest);
      } else {
        ByteInFront(b[0], rest);
      }
    }
  }

  lemma NewlineInFront(rest: seq<Bytes>)
    requires rest != []
    ensures Joined([[]] + rest) == [10] + Joined(rest)
  {
    assert ([[]] + rest)[1..] == rest;
  }

  lemma ByteInFront(x: Byte, rest: seq<Bytes>)
    requires rest != []
    ensures Joined([[x] + rest[0]] + rest[1..]) == [x] + Joined(rest)
  {
    var lines := [[x] + rest[0]] + rest[1..];
    assert lines[1..] == rest[1..];
    if |rest| > 1 {
      assert [x] + rest[0] + [10] + Joined(rest[1..]) == [x] + (rest[0] + [10] + Joined(rest[1..]));
    }
  }

  // ---------- what the reader takes ----------

  /** The line starts with d, a, t, a and a colon. */
  predicate StartsData(line: Bytes) {
    |line| >= 5 && line[0] == 100 && line[1] == 97 && line[2] == 116 && line[3] == 97 && line[4] == 58
  }

  function AfterColon(line: Bytes): Bytes
    requires StartsData(line)
  {
    if |line| > 5 && line[5] == 32 then line[6..] else line[5..]
  }

  ghost predicate IsFirstData(lines: seq<Bytes>, i: nat) {
    i < |lines| && StartsData(lines[i]) && forall j :: 0 <= j < i ==> !StartsData(lines[j])
  }

  lemma DataIsStart(line: Bytes)
    ensures IsData(line) <==> StartsData(line)
    ensures IsData(line) ==> DataOf(line) == AfterColon(line)
  {
    if StartsData(line) {
      assert line[..5] == DATA;
    }
    if IsData(line) {
      assert line[0] == DATA[0] && line[1] == DATA[1] && line[2] == DATA[2] && line[3] == DATA[3] && line[4] == DATA[4];
      var v := line[5..];
      assert |v| > 0 ==> v[0] == line[5] && v[1..] == line[6..];
    }
  }

  /** A frame without a data line has no payload; otherwise the payload is what follows the colon of its first
      data line, less one leading space. */
  lemma {:induction false} FirstDataMeans(lines: seq<Bytes>, i: nat)
    requires i <= |lines| && forall j :: 0 <= j < i ==> !StartsData(lines[j])
    ensures i == |lines| ==> FirstData(lines) == None
    ensures i < |lines| && StartsData(lines[i]) ==> FirstData(lines) == Some(AfterColon(lines[i]))
  {
    if lines != [] {
      DataIsStart(lines[0]);
      if i > 0 {
        assert !StartsData(lines[0]);
        FirstDataMeans(lines[1..], i - 1);
      }
    }
  }

  lemma PayloadMeans(frame: Bytes, i: nat)
    ensures (forall j :: 0 <= j < |Lines(frame)| ==> !StartsData(Lines(frame)[j])) ==> PayloadOf(frame) == None
    ensures IsFirstData(Lines(frame), i) ==> PayloadOf(frame) == Some(AfterColon(Lines(frame)[i]))
  {
    var lines := Lines(frame);
    if forall j :: 0 <= j < |lines| ==> !StartsData(lines[j]) {
      FirstDataMeans(lines, |lines|);
    }
    if IsFirstData(lines, i) {
      FirstDataMeans(lines, i);
    }
  }

  // ---------- what the writer puts ----------

  /** "event: ", "id: " and "data: ". */
  const EVENT_LINE: Bytes := [101, 118, 101, 110, 116, 58, 32]
  const ID_LINE: Bytes := [105, 100, 58, 32]
  const DATA_LINE: Bytes := [100, 97, 116, 97, 58, 32]

  function FieldLine(tag: Bytes, field: Bytes): seq<Bytes> {
    if field == [] then [] else [tag + field]
  }

  lemma FieldIsLine(tag: Bytes, field: Bytes, tail: Bytes)
    requires NoNewline(tag) && NoNewline(field)
    ensures Lines(WithField(tag, field, tail)) == FieldLine(tag, field) + Lines(tail)
  {
    if field != [] {
      FirstLine(tag + field, tail);
    }
  }

  /** A written frame has the event's name and id on lines of their own, when they are not empty, and its data on
      the last line; the blank line ends it. */
  lemma FrameLines(e: Event)
    requires Writable(e)
    ensures Lines(Body(e)) == FieldLine(EVENT_LINE, e.name) + FieldLine(ID_LINE, e.id) + [DATA_LINE + e.data]
    ensures WireFrame(e) == Body(e) + [10, 10]
  {
    var line := DataLine(e.data);
    assert line == DATA_LINE + e.data;
    FirstLine(line, []);
    FieldIsLine(ID, e.id, line);
    FieldIsLine(EVENT, e.name, WithField(ID, e.id, line));
  }
}
