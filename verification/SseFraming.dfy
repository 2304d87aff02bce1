/** Server-sent events on the wire: the writer of the read API and the reader of the ingest side.
    A frame ends at a blank line (section 9.2.6 of the WHATWG HTML Living Standard). */
module SseFraming {
  import opened Wrappers
  import opened ByteStrings

  const NL: Byte := 10
  const SPACE: Byte := 32
  const DATA: Bytes := [100, 97, 116, 97, 58]                // "data:"
  const EVENT: Bytes := [101, 118, 101, 110, 116, 58, 32]    // "event: "
  const ID: Bytes := [105, 100, 58, 32]                      // "id: "

  // ---------- splitting at blank lines ----------

  predicate BlankAt(b: Bytes, i: int) {
    0 <= i < |b| - 1 && b[i] == NL && b[i + 1] == NL
  }

  /** The leftmost blank line of b, or -1. */
  ghost predicate IsFirstBlank(b: Bytes, i: int) {
    && (i < 0 ==> i == -1 && forall j :: !BlankAt(b, j))
    && (i >= 0 ==> BlankAt(b, i) && forall j :: j < i ==> !BlankAt(b, j))
  }

  function FirstBlank(b: Bytes): (i: int)
    ensures IsFirstBlank(b, i)
  {
    if |b| < 2 then -1
    else if b[0] == NL && b[1] == NL then 0
    else
      var j := FirstBlank(b[1..]);
      assert forall k :: k > 0 ==> BlankAt(b, k) == BlankAt(b[1..], k - 1);
      if j < 0 then -1 else j + 1
  }

  method IndexDoubleNewline(b: Bytes) returns (i: int)
    ensures i == FirstBlank(b)
  {
    i := 0;
    while i + 1 < |b|
      invariant 0 <= i
      invariant forall j :: j < i ==> !BlankAt(b, j)
    {
      if b[i] == NL && b[i + 1] == NL {
        FirstBlankUnique(b, i, FirstBlank(b));
        return;
      }
      i := i + 1;
    }
    FirstBlankUnique(b, -1, FirstBlank(b));
    return -1;
  }

  lemma FirstBlankUnique(b: Bytes, i: int, j: int)
    requires IsFirstBlank(b, i) && IsFirstBlank(b, j)
    ensures i == j
  {
  }

  /** The complete frames of a byte string: its leftmost split at blank lines. */
  function Frames(b: Bytes): seq<Bytes>
    decreases |b|
  {
    var i := FirstBlank(b);
    if i < 0 then [] else [b[..i]] + Frames(b[i + 2..])
  }

  /** What is left behind the last complete frame. */
  function Rest(b: Bytes): Bytes
    decreases |b|
  {
    var i := FirstBlank(b);
    if i < 0 then b else Rest(b[i + 2..])
  }

  lemma BlankInPrefix(a: Bytes, b: Bytes)
    requires FirstBlank(a) >= 0
    ensures FirstBlank(a + b) == FirstBlank(a)
  {
    var i := FirstBlank(a);
    assert forall j :: j < i + 1 ==> BlankAt(a + b, j) == BlankAt(a, j) by {
      assert forall j :: 0 <= j <= i + 1 ==> (a + b)[j] == a[j];
    }
    FirstBlankUnique(a + b, i, FirstBlank(a + b));
  }

  /** Bytes that arrive later never change the frames already complete. */
  lemma {:induction false} FramesAppend(a: Bytes, b: Bytes)
    ensures Frames(a + b) == Frames(a) + Frames(Rest(a) + b)
    ensures Rest(a + b) == Rest(Rest(a) + b)
    decreases |a|
  {
    var i := FirstBlank(a);
    if i < 0 {
      assert Frames(a) == [];
    } else {
      var tail := a[i + 2..];
      FramesAppend(tail, b);
      assert FirstBlank(a + b) == i && (a + b)[..i] == a[..i] && (a + b)[i + 2..] == tail + b by {
        BlankInPrefix(a, b);
      }
      FramesStep(a, i, a[..i], tail);
      FramesStep(a + b, i, a[..i], tail + b);
    }
  }

  lemma FramesStep(b: Bytes, i: nat, frame: Bytes, tail: Bytes)
    requires FirstBlank(b) == i && b[..i] == frame && b[i + 2..] == tail
    ensures Frames(b) == [frame] + Frames(tail) && Rest(b) == Rest(tail)
  {
  }

  // ---------- the data field of a frame ----------

  function Lines(b: Bytes): (lines: seq<Bytes>)
    ensures |lines| > 0
    decreases |b|
  {
    if b == [] then [[]]
    else
      var rest := Lines(b[1..]);
      if b[0] == NL then [[]] + rest else [[b[0]] + rest[0]] + rest[1..]
  }

  predicate IsData(line: Bytes) {
    DATA <= line
  }

  /** What follows "data:" on a line, less one leading space. */
  function DataOf(line: Bytes): Bytes
    requires IsData(line)
  {
    var v := line[5..];
    if |v| > 0 && v[0] == SPACE then v[1..] else v
  }

  function FirstData(lines: seq<Bytes>): Option<Bytes> {
    if lines == [] then None
    else if IsData(lines[0]) then Some(DataOf(lines[0]))
    else FirstData(lines[1..])
  }

  function PayloadOf(frame: Bytes): Option<Bytes> {
    FirstData(Lines(frame))
  }

  method ParseSseData(frame: Bytes) returns (data: Option<Bytes>)
    ensures data == PayloadOf(frame)
  {
    var lines := Lines(frame);
    for i := 0 to |lines|
      invariant FirstData(lines) == FirstData(lines[i..])
    {
      var line := lines[i];
      if |line| >= 5 && line[..5] == DATA {
        return Some(DataOf(line));
      }
    }
    return None;
  }

  /** The data of every complete frame of a byte string. */
  function PayloadsIn(b: Bytes): seq<Option<Bytes>> {
    Payloads(Frames(b))
  }

  lemma PayloadStep(b: Bytes)
    ensures var i := FirstBlank(b);
            PayloadsIn(b) == if i < 0 then [] else [PayloadOf(b[..i])] + PayloadsIn(b[i + 2..])
  {
    var i := FirstBlank(b);
    if i >= 0 {
      FramesStep(b, i, b[..i], b[i + 2..]);
      assert ([b[..i]] + Frames(b[i + 2..]))[1..] == Frames(b[i + 2..]);
    }
  }

  function Payloads(frames: seq<Bytes>): seq<Option<Bytes>> {
    if frames == [] then [] else [PayloadOf(frames[0])] + Payloads(frames[1..])
  }

  // ---------- the reader ----------

  /** One read from the connection: some bytes, and possibly an error with them. */
  datatype Read = Read(bytes: Bytes, failed: bool)

  /** The bytes of the reads before the first failing one. */
  function Clean(input: seq<Read>): Bytes {
    if input == [] || input[0].failed then [] else input[0].bytes + Clean(input[1..])
  }

  class SseReader {
    var input: seq<Read>  // the reads still to come; at the end of the list every read fails
    var buf: Bytes

    constructor (input: seq<Read>)
      ensures this.input == input && buf == []
    {
      this.input := input;
      buf := [];
    }

    /** The next frame's data, or an error.  The outcome depends on the clean bytes alone, not on how
        they are cut into reads; the bytes of a failing read are kept but not looked at. */
    method Next() returns (ok: bool, data: Option<Bytes>)
      modifies this
      ensures var all := old(buf) + Clean(old(input));
              var i := FirstBlank(all);
              && ok == (i >= 0)
              && (ok ==> data == PayloadOf(all[..i]) && buf + Clean(input) == all[i + 2..])
      ensures !ok ==> data == None
    {
      ghost var all := buf + Clean(input);
      while true
        invariant buf + Clean(input) == all
        decreases |input|
      {
        var idx := IndexDoubleNewline(buf);
        if idx >= 0 {
          BlankInPrefix(buf, Clean(input));
          var frame := buf[..idx];
          assert all[..idx] == frame && all[idx + 2..] == buf[idx + 2..] + Clean(input);
          buf := buf[idx + 2..];
          data := ParseSseData(frame);
          return true, data;
        }
        if input == [] {
          assert all == buf;
          return false, None;
        }
        var read := input[0];
        input := input[1..];
        if read.failed {
          assert all == buf;
          buf := buf + read.bytes;
          return false, None;
        }
        assert buf + (read.bytes + Clean(input)) == buf + read.bytes + Clean(input);
        buf := buf + read.bytes;
      }
    }

    /** Reads frames until the connection fails. */
    method ReadAll() returns (payloads: seq<Option<Bytes>>)
      modifies this
      ensures payloads == PayloadsIn(old(buf) + Clean(old(input)))
    {
      payloads := [];
      ghost var left := buf + Clean(input);
      while true
        invariant left == buf + Clean(input)
        invariant payloads + PayloadsIn(left) == PayloadsIn(old(buf + Clean(input)))
        decreases |left|
      {
        PayloadStep(left);
        var ok, data := Next();
        if !ok {
          return;
        }
        left := left[FirstBlank(left) + 2..];
        assert payloads + ([data] + PayloadsIn(left)) == payloads + [data] + PayloadsIn(left);
        payloads := payloads + [data];
      }
    }
  }

  /** The frames of the whole stream, failing read included, are those returned followed by those its last
      bytes complete: nothing is lost exactly when the failing read completes no frame. */
  lemma LossAtTheEnd(clean: Bytes, last: Bytes)
    ensures Frames(clean) <= Frames(clean + last)
    ensures Frames(clean + last) == Frames(clean) <==> FirstBlank(Rest(clean) + last) < 0
  {
    FramesAppend(clean, last);
  }

  // ---------- the writer ----------

  /** An event to write; an empty name or id is left out. */
  datatype Event = Event(name: Bytes, id: Bytes, data: Bytes)

  function WithField(tag: Bytes, field: Bytes, tail: Bytes): Bytes {
    if field == [] then tail else tag + field + [NL] + tail
  }

  function DataLine(data: Bytes): Bytes {
    DATA + [SPACE] + data
  }

  /** A frame without the blank line that ends it. */
  function Body(e: Event): Bytes {
    WithField(EVENT, e.name, WithField(ID, e.id, DataLine(e.data)))
  }

  function WireFrame(e: Event): Bytes {
    Body(e) + [NL, NL]
  }

  function Wire(events: seq<Event>): Bytes {
    if events == [] then [] else WireFrame(events[0]) + Wire(events[1..])
  }

  class SseWriter {
    var out: Bytes

    /** The line of a field, unless the field is empty, before the given tail. */
    method WriteField(tag: Bytes, field: Bytes, ghost tail: Bytes)
      modifies this
      ensures out + tail == old(out) + WithField(tag, field, tail)
    {
      if field != [] {
        ghost var before := out;
        var line := tag + field + [NL];
        out := out + line;
        Behind(before, line, tail);
      }
    }

    method WriteData(data: Bytes, ghost blank: Bytes)
      requires blank == [NL, NL]
      modifies this
      ensures out == old(out) + DataLine(data) + blank
    {
      ghost var before := out;
      out := out + (DATA + [SPACE] + data + [NL, NL]);
      Behind(before, DataLine(data), blank);
    }

    method WriteEvent(e: Event)
      modifies this
      ensures out == old(out) + WireFrame(e)
    {
      ghost var before, blank := out, [NL, NL];
      ghost var data := DataLine(e.data);
      ghost var fields := WithField(ID, e.id, data);
      WriteField(EVENT, e.name, fields);
      WriteField(ID, e.id, data);
      assert out + data == before + Body(e);
      WriteData(e.data, blank);
      Behind(before, Body(e), blank);
    }
  }

  lemma Behind(a: Bytes, b: Bytes, c: Bytes)
    ensures a + b + c == a + (b + c)
  {
  }

  predicate NoNewline(b: Bytes) {
    forall i :: 0 <= i < |b| ==> b[i] != NL
  }

  predicate Writable(e: Event) {
    NoNewline(e.name) && NoNewline(e.id) && NoNewline(e.data)
  }

  /** Neither starts nor ends with a newline, nor contains a blank line. */
  ghost predicate Tidy(b: Bytes) {
    && b != [] && b[0] != NL && b[|b| - 1] != NL
    && forall i :: !BlankAt(b, i)
  }

  lemma TidyLines(a: Bytes, b: Bytes)
    requires Tidy(a) && Tidy(b)
    ensures Tidy(a + [NL] + b)
  {
    var s := a + [NL] + b;
    forall i ensures !BlankAt(s, i) {
      if 0 <= i < |a| - 1 {
        assert !BlankAt(a, i);
      } else if i > |a| {
        assert !BlankAt(b, i - |a| - 1);
      }
    }
  }

  lemma TidyLine(b: Bytes)
    requires b != [] && NoNewline(b)
    ensures Tidy(b)
  {
  }

  lemma FrameEnds(frame: Bytes, rest: Bytes)
    requires Tidy(frame)
    ensures FirstBlank(frame + [NL, NL] + rest) == |frame|
  {
    var s := frame + [NL, NL] + rest;
    forall j | j < |frame| ensures !BlankAt(s, j) {
      if 0 <= j < |frame| - 1 {
        assert !BlankAt(frame, j);
      }
    }
    assert BlankAt(s, |frame|);
    FirstBlankUnique(s, |frame|, FirstBlank(s));
  }

  lemma {:induction false} FirstLine(a: Bytes, rest: Bytes)
    requires NoNewline(a)
    ensures Lines(a + [NL] + rest) == [a] + Lines(rest)
    ensures Lines(a) == [a]
  {
    var s := a + [NL] + rest;
    if a == [] {
      assert s[1..] == rest;
    } else {
      assert s[1..] == a[1..] + [NL] + rest;
      FirstLine(a[1..], rest);
      assert [a[0]] + a[1..] == a;
    }
  }

  /** A frame that does not break early and whose first data line carries the given data. */
  ghost predicate Carries(frame: Bytes, data: Bytes) {
    Tidy(frame) && PayloadOf(frame) == Some(data)
  }

  lemma DataLineCarries(data: Bytes)
    requires NoNewline(data)
    ensures Carries(DataLine(data), data)
  {
    var line := DataLine(data);
    TidyLine(line);
    FirstLine(line, []);
    assert IsData(line) && line[5..] == [SPACE] + data;
  }

  lemma FieldCarries(tag: Bytes, field: Bytes, tail: Bytes, data: Bytes)
    requires tag != [] && NoNewline(tag) && tag[0] != DATA[0] && NoNewline(field)
    requires Carries(tail, data)
    ensures Carries(WithField(tag, field, tail), data)
  {
    if field != [] {
      var line := tag + field;
      TidyLine(line);
      TidyLines(line, tail);
      FirstLine(line, tail);
      assert ([line] + Lines(tail))[1..] == Lines(tail);
      assert !IsData(line);
    }
  }

  lemma FieldsCarry(inner: Bytes, outer: Bytes, e: Event)
    requires inner != [] && NoNewline(inner) && inner[0] != DATA[0]
    requires outer != [] && NoNewline(outer) && outer[0] != DATA[0]
    requires Writable(e)
    ensures Carries(WithField(outer, e.name, WithField(inner, e.id, DataLine(e.data))), e.data)
  {
    DataLineCarries(e.data);
    FieldCarries(inner, e.id, DataLine(e.data), e.data);
    FieldCarries(outer, e.name, WithField(inner, e.id, DataLine(e.data)), e.data);
  }

  lemma BodyCarries(e: Event)
    requires Writable(e)
    ensures Carries(Body(e), e.data)
  {
    FieldsCarry(ID, EVENT, e);
  }

  /** Reading s yields the given data first and leaves rest to read. */
  ghost predicate ReadsFirst(s: Bytes, data: Bytes, rest: Bytes) {
    PayloadsIn(s) == [Some(data)] + PayloadsIn(rest) && Rest(s) == Rest(rest)
  }

  lemma FrameIsRead(frame: Bytes, data: Bytes, rest: Bytes)
    requires Carries(frame, data)
    ensures ReadsFirst(frame + [NL, NL] + rest, data, rest)
  {
    var s := frame + [NL, NL] + rest;
    FrameEnds(frame, rest);
    assert s[..|frame|] == frame && s[|frame| + 2..] == rest;
    PayloadStep(s);
    FramesStep(s, |frame|, frame, rest);
  }

  lemma EventIsRead(e: Event, rest: Bytes)
    requires Writable(e)
    ensures ReadsFirst(WireFrame(e) + rest, e.data, rest)
  {
    ghost var body := Body(e);
    assert Carries(body, e.data) by {
      BodyCarries(e);
    }
    FrameIsRead(body, e.data, rest);
  }

  function DataOfEvents(events: seq<Event>): seq<Option<Bytes>> {
    if events == [] then [] else [Some(events[0].data)] + DataOfEvents(events[1..])
  }

  /** Reading inverts writing: whatever the reads, the frames written come back as their data. */
  lemma {:induction false} ReaderInvertsWriter(events: seq<Event>)
    requires forall e :: e in events ==> Writable(e)
    ensures PayloadsIn(Wire(events)) == DataOfEvents(events)
    ensures Rest(Wire(events)) == []
  {
    if events != [] {
      var e, rest := events[0], Wire(events[1..]);
      assert ReadsFirst(WireFrame(e) + rest, e.data, rest) by {
        EventIsRead(e, rest);
      }
      ReaderInvertsWriter(events[1..]);
    }
  }
}
