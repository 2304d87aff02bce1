/** The chat history on its way to the model: sanitise, trim old tool results, translate to the
    content-block shape of the Anthropic messages API. */
module ChatHistory {

  datatype Role = System | User | Assistant | Tool | Unknown

  datatype ToolCall = ToolCall(id: string, name: string, arguments: string)

  datatype Message = Message(role: Role, content: string, name: string, toolCalls: seq<ToolCall>, toolCallId: string)

  function CallIds(calls: seq<ToolCall>): set<string> {
    set c | c in calls :: c.id
  }

  // ---------- sanitise ----------

  /** Drops empty assistant messages and tool messages that answer no call of an earlier kept message. */
  function Sanitised(msgs: seq<Message>, valid: set<string>): seq<Message>
    decreases |msgs|
  {
    if msgs == [] then []
    else
      var m, rest := msgs[0], msgs[1..];
      match m.role
      case Assistant =>
        if m.content == "" && m.toolCalls == [] then Sanitised(rest, valid)
        else [m] + Sanitised(rest, valid + CallIds(m.toolCalls))
      case Tool => if m.toolCallId in valid then [m] + Sanitised(rest, valid) else Sanitised(rest, valid)
      case _ => [m] + Sanitised(rest, valid)
  }

  method SanitiseHistory(msgs: seq<Message>) returns (out: seq<Message>)
    ensures out == Sanitised(msgs, {})
  {
    out := [];
    var valid: set<string> := {};
    for i := 0 to |msgs|
      invariant out + Sanitised(msgs[i..], valid) == Sanitised(msgs, {})
    {
      var m := msgs[i];
      assert msgs[i..][1..] == msgs[i + 1..];
      ghost var before := out;
      if m.role == Assistant {
        if m.content == "" && m.toolCalls == [] {
          continue;
        }
        valid := valid + CallIds(m.toolCalls);
      } else if m.role == Tool && m.toolCallId !in valid {
        continue;
      }
      out := out + [m];
      assert before + ([m] + Sanitised(msgs[i + 1..], valid)) == out + Sanitised(msgs[i + 1..], valid);
    }
  }

  /** Some assistant message before message i lists this call. */
  ghost predicate CalledBefore(msgs: seq<Message>, i: nat, id: string)
    requires i <= |msgs|
  {
    exists j :: 0 <= j < i && msgs[j].role == Assistant && id in CallIds(msgs[j].toolCalls)
  }

  /** Message i is no empty assistant message and, if a tool message, answers an earlier call. */
  ghost predicate Survives(msgs: seq<Message>, i: nat)
    requires i < |msgs|
  {
    && (msgs[i].role == Assistant ==> msgs[i].content != "" || msgs[i].toolCalls != [])
    && (msgs[i].role == Tool ==> CalledBefore(msgs, i, msgs[i].toolCallId))
  }

  /** The surviving messages from i on, in order. */
  ghost function Survivors(msgs: seq<Message>, i: nat): seq<Message>
    requires i <= |msgs|
    decreases |msgs| - i
  {
    if i == |msgs| then [] else (if Survives(msgs, i) then [msgs[i]] else []) + Survivors(msgs, i + 1)
  }

  /** Sanitising keeps exactly the surviving messages of the history it is given. */
  lemma SanitisedIsFilter(msgs: seq<Message>)
    ensures Sanitised(msgs, {}) == Survivors(msgs, 0)
  {
    assert msgs[0..] == msgs;
    SanitisedFrom(msgs, 0, {});
  }

  lemma {:induction false} SanitisedFrom(msgs: seq<Message>, i: nat, valid: set<string>)
    requires i <= |msgs| && forall id :: id in valid <==> CalledBefore(msgs, i, id)
    ensures Sanitised(msgs[i..], valid) == Survivors(msgs, i)
    decreases |msgs| - i
  {
    if i < |msgs| {
      var m := msgs[i];
      var valid' := if m.role == Assistant then valid + CallIds(m.toolCalls) else valid;
      assert msgs[i..][0] == m && msgs[i..][1..] == msgs[i + 1..];
      forall id ensures id in valid' <==> CalledBefore(msgs, i + 1, id) {
        CalledNext(msgs, i, id);
      }
      SanitisedFrom(msgs, i + 1, valid');
      if m.role == Assistant && m.content == "" && m.toolCalls == [] {
        assert valid' == valid;
      }
    }
  }

  lemma CalledNext(msgs: seq<Message>, i: nat, id: string)
    requires i < |msgs|
    ensures CalledBefore(msgs, i + 1, id) <==>
            CalledBefore(msgs, i, id) || (msgs[i].role == Assistant && id in CallIds(msgs[i].toolCalls))
  {
  }

  /** Every tool message answers a call of an earlier assistant message, or one in `valid`. */
  predicate Answered(msgs: seq<Message>, valid: set<string>)
    decreases |msgs|
  {
    msgs == [] ||
    (&& (msgs[0].role == Tool ==> msgs[0].toolCallId in valid)
     && Answered(msgs[1..], if msgs[0].role == Assistant then valid + CallIds(msgs[0].toolCalls) else valid))
  }

  predicate NoEmptyAssistant(msgs: seq<Message>) {
    forall m :: m in msgs && m.role == Assistant ==> m.content != "" || m.toolCalls != []
  }

  lemma {:induction false} SanitisedIsClean(msgs: seq<Message>, valid: set<string>)
    ensures Answered(Sanitised(msgs, valid), valid) && NoEmptyAssistant(Sanitised(msgs, valid))
    decreases |msgs|
  {
    if msgs != [] {
      var m := msgs[0];
      var valid' := if m.role == Assistant then valid + CallIds(m.toolCalls) else valid;
      if m.role == Assistant && m.content == "" && m.toolCalls == [] {
        SanitisedIsClean(msgs[1..], valid);
      } else {
        SanitisedIsClean(msgs[1..], valid');
      }
    }
  }

  /** A clean history passes unchanged: sanitising drops only what it has to, and doing it twice is the
      same as doing it once. */
  lemma {:induction false} CleanIsUnchanged(msgs: seq<Message>, valid: set<string>)
    requires Answered(msgs, valid) && NoEmptyAssistant(msgs)
    ensures Sanitised(msgs, valid) == msgs
    decreases |msgs|
  {
    if msgs != [] {
      var m := msgs[0];
      CleanIsUnchanged(msgs[1..], if m.role == Assistant then valid + CallIds(m.toolCalls) else valid);
      assert msgs == [m] + msgs[1..];
    }
  }

  lemma SanitiseIsIdempotent(msgs: seq<Message>)
    ensures Sanitised(Sanitised(msgs, {}), {}) == Sanitised(msgs, {})
  {
    SanitisedIsClean(msgs, {});
    CleanIsUnchanged(Sanitised(msgs, {}), {});
  }

  // ---------- trim ----------

  const TOOL_KEEP_RECENT: nat := 3
  const TOOL_TRIM_THRESHOLD: nat := 2000

  function Tools(msgs: seq<Message>): nat {
    if msgs == [] then 0 else (if msgs[0].role == Tool then 1 else 0) + Tools(msgs[1..])
  }

  /** Renders the stub left for a large result from the tool's name and the size of the result. */
  type StubText = (string, nat) -> string

  function Stub(m: Message, text: StubText): Message {
    Message(m.role, text(m.name, |m.content|), m.name, [], m.toolCallId)
  }

  /** The number of tool messages behind message i. */
  function ToolsBehind(msgs: seq<Message>, i: nat): nat
    requires i < |msgs|
  {
    Tools(msgs[i + 1..])
  }

  function TrimmedAt(msgs: seq<Message>, i: nat, text: StubText): Message
    requires i < |msgs|
  {
    var m := msgs[i];
    if m.role == Tool && ToolsBehind(msgs, i) >= TOOL_KEEP_RECENT && |m.content| > TOOL_TRIM_THRESHOLD then Stub(m, text) else m
  }

  function Trimmed(msgs: seq<Message>, text: StubText): (out: seq<Message>)
    ensures |out| == |msgs|
  {
    seq(|msgs|, i requires 0 <= i < |msgs| => TrimmedAt(msgs, i, text))
  }

  /** positions[k] is the tool message with exactly k tool messages behind it. */
  ghost predicate ToolPositions(msgs: seq<Message>, positions: seq<nat>, from: nat) {
    && from <= |msgs|
    && (forall k :: 0 <= k < |positions| ==>
          from <= positions[k] < |msgs| && msgs[positions[k]].role == Tool && ToolsBehind(msgs, positions[k]) == k)
    && (forall j :: from <= j < |msgs| && msgs[j].role == Tool ==>
          ToolsBehind(msgs, j) < |positions| && positions[ToolsBehind(msgs, j)] == j)
  }

  method FindTools(msgs: seq<Message>) returns (positions: seq<nat>)
    ensures ToolPositions(msgs, positions, 0)
  {
    positions := [];
    var i := |msgs|;
    while i > 0
      invariant 0 <= i <= |msgs| && |positions| == Tools(msgs[i..])
      invariant ToolPositions(msgs, positions, i)
    {
      i := i - 1;
      assert msgs[i..][1..] == msgs[i + 1..];
      if msgs[i].role == Tool {
        assert ToolsBehind(msgs, i) == |positions|;
        positions := positions + [i];
      }
    }
  }

  /** The history once the k most recent tool messages have been dealt with. */
  function TrimmedTo(msgs: seq<Message>, k: nat, text: StubText): (out: seq<Message>)
    ensures |out| == |msgs|
  {
    seq(|msgs|, i requires 0 <= i < |msgs| => if ToolsBehind(msgs, i) < k then TrimmedAt(msgs, i, text) else msgs[i])
  }

  lemma TrimStep(msgs: seq<Message>, positions: seq<nat>, k: nat, text: StubText)
    requires ToolPositions(msgs, positions, 0) && k < |positions|
    ensures TrimmedTo(msgs, k + 1, text) == TrimmedTo(msgs, k, text)[positions[k] := TrimmedAt(msgs, positions[k], text)]
    ensures TrimmedTo(msgs, k, text)[positions[k]] == msgs[positions[k]]
  {
    var p := positions[k];
    forall j | 0 <= j < |msgs| && j != p
      ensures TrimmedTo(msgs, k + 1, text)[j] == TrimmedTo(msgs, k, text)[j]
    {
      assert ToolsBehind(msgs, j) == k ==> msgs[j].role != Tool;
    }
  }

  lemma TrimEnds(msgs: seq<Message>, positions: seq<nat>, text: StubText)
    requires ToolPositions(msgs, positions, 0)
    ensures TrimmedTo(msgs, |positions|, text) == Trimmed(msgs, text)
    ensures TrimmedTo(msgs, TOOL_KEEP_RECENT, text) == msgs
  {
    forall j | 0 <= j < |msgs|
      ensures TrimmedTo(msgs, |positions|, text)[j] == Trimmed(msgs, text)[j]
      ensures TrimmedTo(msgs, TOOL_KEEP_RECENT, text)[j] == msgs[j]
    {
    }
  }

  lemma FewToolsStay(msgs: seq<Message>, positions: seq<nat>, text: StubText)
    requires ToolPositions(msgs, positions, 0) && |positions| <= TOOL_KEEP_RECENT
    ensures Trimmed(msgs, text) == msgs
  {
    forall j | 0 <= j < |msgs| ensures Trimmed(msgs, text)[j] == msgs[j] {
    }
  }

  method TrimOldToolResults(msgs: seq<Message>, text: StubText) returns (out: seq<Message>)
    ensures out == Trimmed(msgs, text)
  {
    var positions := FindTools(msgs);
    if |positions| <= TOOL_KEEP_RECENT {
      FewToolsStay(msgs, positions, text);
      return msgs;
    }
    TrimEnds(msgs, positions, text);
    out := msgs;
    for k := TOOL_KEEP_RECENT to |positions|
      invariant out == TrimmedTo(msgs, k, text)
    {
      TrimStep(msgs, positions, k, text);
      var idx := positions[k];
      if |out[idx].content| > TOOL_TRIM_THRESHOLD {
        out := out[idx := Stub(out[idx], text)];
      }
    }
  }

  /** Trimming touches nothing but the text of old tool results. */
  predicate SameShape(a: Message, b: Message) {
    a.role == b.role && a.toolCallId == b.toolCallId && (a.role != Tool ==> a == b)
  }

  predicate SameShapes(a: seq<Message>, b: seq<Message>) {
    |a| == |b| && forall i :: 0 <= i < |a| ==> SameShape(a[i], b[i])
  }

  lemma {:induction false} ShapeKeepsAnswered(a: seq<Message>, b: seq<Message>, valid: set<string>)
    requires SameShapes(a, b) && Answered(a, valid)
    ensures Answered(b, valid)
    decreases |a|
  {
    if a != [] {
      assert SameShape(a[0], b[0]);
      assert forall i :: 0 <= i < |a[1..]| ==> a[1..][i] == a[i + 1] && b[1..][i] == b[i + 1];
      ShapeKeepsAnswered(a[1..], b[1..], if a[0].role == Assistant then valid + CallIds(a[0].toolCalls) else valid);
    }
  }

  // ---------- translate ----------

  datatype Block = Text(text: string) | ToolUse(id: string, name: string, input: string) | ToolResult(id: string, content: string)

  /** A message of the target API; its role is user or assistant. */
  datatype Turn = UserTurn(content: seq<Block>) | AssistantTurn(content: seq<Block>)

  predicate IsSpace(c: char) {
    c in {' ', '\t', '\n', '\r', '\U{000B}', '\U{000C}', '\U{0085}', '\U{00A0}'}
  }

  /** strings.TrimSpace(s) == "" */
  predicate Blank(s: string) {
    forall i :: 0 <= i < |s| ==> IsSpace(s[i])
  }

  function TextBlocks(content: string): seq<Block> {
    if Blank(content) then [] else [Text(content)]
  }

  function ToolUses(calls: seq<ToolCall>): (blocks: seq<Block>)
    ensures |blocks| == |calls|
  {
    seq(|calls|, i requires 0 <= i < |calls| => ToolUse(calls[i].id, calls[i].name, calls[i].arguments))
  }

  /** The content blocks one message contributes. */
  function BlocksOf(m: Message): seq<Block> {
    match m.role
    case User => TextBlocks(m.content)
    case Assistant => TextBlocks(m.content) + ToolUses(m.toolCalls)
    case Tool => [ToolResult(m.toolCallId, m.content)]
    case _ => []
  }

  function Flush(pending: seq<Block>): seq<Turn> {
    if pending == [] then [] else [UserTurn(pending)]
  }

  /** What a message makes the translation send, and the tool results waiting after it. */
  function Sent(m: Message, pending: seq<Block>): seq<Turn> {
    var blocks := BlocksOf(m);
    match m.role
    case User => Flush(pending) + if blocks == [] then [] else [UserTurn(blocks)]
    case Assistant => Flush(pending) + if blocks == [] then [] else [AssistantTurn(blocks)]
    case _ => []
  }

  function Waiting(m: Message, pending: seq<Block>): seq<Block> {
    match m.role
    case User => []
    case Assistant => []
    case Tool => pending + BlocksOf(m)
    case _ => pending
  }

  function Translated(msgs: seq<Message>, pending: seq<Block>): seq<Turn>
    decreases |msgs|
  {
    if msgs == [] then Flush(pending)
    else Sent(msgs[0], pending) + Translated(msgs[1..], Waiting(msgs[0], pending))
  }

  method TranslateMessage(m: Message, waiting: seq<Block>) returns (out: seq<Turn>, pending: seq<Block>)
    ensures out == Sent(m, waiting) && pending == Waiting(m, waiting)
  {
    out, pending := [], waiting;
    match m.role {
      case System =>
      case User =>
        out, pending := Flush(pending), [];
        if !Blank(m.content) {
          out := out + [UserTurn([Text(m.content)])];
        }
      case Assistant =>
        out, pending := Flush(pending), [];
        var content := TextBlocks(m.content);
        for k := 0 to |m.toolCalls|
          invariant content == TextBlocks(m.content) + ToolUses(m.toolCalls)[..k]
        {
          content := content + [ToolUse(m.toolCalls[k].id, m.toolCalls[k].name, m.toolCalls[k].arguments)];
        }
        assert content == BlocksOf(m);
        if content != [] {
          out := out + [AssistantTurn(content)];
        }
      case Tool =>
        pending := pending + [ToolResult(m.toolCallId, m.content)];
      case Unknown =>
    }
  }

  method TranslateMessages(msgs: seq<Message>) returns (out: seq<Turn>)
    ensures out == Translated(msgs, [])
  {
    out := [];
    var pending: seq<Block> := [];
    for i := 0 to |msgs|
      invariant out + Translated(msgs[i..], pending) == Translated(msgs, [])
    {
      assert msgs[i..][1..] == msgs[i + 1..];
      ghost var before := out;
      var sent, waiting := TranslateMessage(msgs[i], pending);
      out, pending := out + sent, waiting;
      assert before + (sent + Translated(msgs[i + 1..], waiting)) == out + Translated(msgs[i + 1..], waiting);
    }
    out := out + Flush(pending);
  }

  // ---------- what the model is sent ----------

  function Flat(turns: seq<Turn>): seq<Block> {
    if turns == [] then [] else turns[0].content + Flat(turns[1..])
  }

  function AllBlocks(msgs: seq<Message>): seq<Block> {
    if msgs == [] then [] else BlocksOf(msgs[0]) + AllBlocks(msgs[1..])
  }

  lemma {:induction false} FlatAppend(a: seq<Turn>, b: seq<Turn>)
    ensures Flat(a + b) == Flat(a) + Flat(b)
  {
    if a == [] {
      assert a + b == b;
    } else {
      assert (a + b)[1..] == a[1..] + b;
      FlatAppend(a[1..], b);
    }
  }

  /** Every content block arrives once and in order: texts, calls and results are neither lost,
      duplicated nor reordered by the batching of tool results. */
  lemma {:induction false} BlocksArePreserved(msgs: seq<Message>, pending: seq<Block>)
    ensures Flat(Translated(msgs, pending)) == pending + AllBlocks(msgs)
    decreases |msgs|
  {
    if msgs == [] {
      assert Flat([]) == [];
    } else {
      var m := msgs[0];
      BlocksArePreserved(msgs[1..], Waiting(m, pending));
      FlatAppend(Sent(m, pending), Translated(msgs[1..], Waiting(m, pending)));
      FlatOfSent(m, pending);
      Regroup(Flat(Sent(m, pending)), Waiting(m, pending), pending, BlocksOf(m), AllBlocks(msgs[1..]));
    }
  }

  lemma Regroup(a: seq<Block>, b: seq<Block>, c: seq<Block>, d: seq<Block>, e: seq<Block>)
    requires a + b == c + d
    ensures a + (b + e) == c + (d + e)
  {
    assert a + (b + e) == (a + b) + e == (c + d) + e == c + (d + e);
  }

  lemma FlatOne(turns: seq<Turn>)
    requires |turns| <= 1
    ensures Flat(turns) == if turns == [] then [] else turns[0].content
  {
    if turns != [] {
      assert turns[1..] == [];
    }
  }

  lemma FlatOfSent(m: Message, pending: seq<Block>)
    ensures Flat(Sent(m, pending)) + Waiting(m, pending) == pending + BlocksOf(m)
  {
    if m.role == User || m.role == Assistant {
      var own := Sent(m, []);
      FlatOne(own);
      FlatOne(Flush(pending));
      FlatAppend(Flush(pending), own);
      assert Sent(m, pending) == Flush(pending) + own;
    } else {
      FlatOne(Sent(m, pending));
    }
  }

  function Uses(t: Turn): set<string> {
    set b | b in t.content && b.ToolUse? && t.AssistantTurn? :: b.id
  }

  /** No turn is empty, results come from the user side and calls from the assistant side, and every
      result answers a call of an earlier turn, or one in `valid`. */
  predicate WellSent(turns: seq<Turn>, valid: set<string>)
    decreases |turns|
  {
    turns == [] ||
    (&& turns[0].content != []
     && (forall b :: b in turns[0].content ==>
           && (b.ToolResult? ==> turns[0].UserTurn? && b.id in valid)
           && (b.ToolUse? ==> turns[0].AssistantTurn?))
     && WellSent(turns[1..], valid + Uses(turns[0])))
  }

  predicate PendingAnswered(pending: seq<Block>, valid: set<string>) {
    forall b :: b in pending ==> b.ToolResult? && b.id in valid
  }

  lemma {:induction false} TranslationIsWellSent(msgs: seq<Message>, pending: seq<Block>, valid: set<string>)
    requires Answered(msgs, valid) && PendingAnswered(pending, valid)
    ensures WellSent(Translated(msgs, pending), valid)
    decreases |msgs|
  {
    if msgs != [] {
      var m, rest := msgs[0], msgs[1..];
      if m.role == User || m.role == Assistant {
        var valid' := if m.role == Assistant then valid + CallIds(m.toolCalls) else valid;
        TranslationIsWellSent(rest, [], valid');
        FlushThenTurn(m, pending, Translated(rest, []), valid, valid');
      } else {
        TranslationIsWellSent(rest, Waiting(m, pending), valid);
        assert [] + Translated(rest, Waiting(m, pending)) == Translated(rest, Waiting(m, pending));
      }
    }
  }

  lemma FlushThenTurn(m: Message, pending: seq<Block>, rest: seq<Turn>, valid: set<string>, valid': set<string>)
    requires m.role == User || m.role == Assistant
    requires valid' == if m.role == Assistant then valid + CallIds(m.toolCalls) else valid
    requires PendingAnswered(pending, valid) && WellSent(rest, valid')
    ensures WellSent(Sent(m, pending) + rest, valid)
  {
    var own := Sent(m, []);
    OwnTurn(m, rest, valid, valid');
    FlushFirst(pending, own + rest, valid);
    assert Sent(m, pending) + rest == Flush(pending) + (own + rest);
  }

  lemma OwnTurn(m: Message, rest: seq<Turn>, valid: set<string>, valid': set<string>)
    requires m.role == User || m.role == Assistant
    requires valid' == if m.role == Assistant then valid + CallIds(m.toolCalls) else valid
    requires WellSent(rest, valid')
    ensures WellSent(Sent(m, []) + rest, valid)
  {
    var own := Sent(m, []);
    TurnUses(m);
    if own == [] {
      assert own + rest == rest;
      assert valid' == valid;
    } else {
      assert (own + rest)[1..] == rest;
      assert valid + Uses(own[0]) == valid';
    }
  }

  lemma FlushFirst(pending: seq<Block>, rest: seq<Turn>, valid: set<string>)
    requires PendingAnswered(pending, valid) && WellSent(rest, valid)
    ensures WellSent(Flush(pending) + rest, valid)
  {
    if pending == [] {
      assert Flush(pending) + rest == rest;
    } else {
      assert (Flush(pending) + rest)[1..] == rest;
      assert valid + Uses(UserTurn(pending)) == valid;
    }
  }

  lemma TurnUses(m: Message)
    requires m.role == User || m.role == Assistant
    ensures forall b :: b in BlocksOf(m) ==> !b.ToolResult? && (b.ToolUse? ==> m.role == Assistant)
    ensures m.role == Assistant ==> Uses(AssistantTurn(BlocksOf(m))) == CallIds(m.toolCalls)
    ensures m.role == Assistant && BlocksOf(m) == [] ==> CallIds(m.toolCalls) == {}
    ensures m.role == User ==> Uses(UserTurn(BlocksOf(m))) == {}
  {
    if m.role == Assistant {
      var uses := ToolUses(m.toolCalls);
      forall c | c in m.toolCalls ensures ToolUse(c.id, c.name, c.arguments) in BlocksOf(m) {
        var i :| 0 <= i < |m.toolCalls| && m.toolCalls[i] == c;
        assert uses[i] == ToolUse(c.id, c.name, c.arguments);
      }
      forall b | b in BlocksOf(m) && b.ToolUse? ensures b.id in CallIds(m.toolCalls) {
        var i :| 0 <= i < |uses| && uses[i] == b;
        assert m.toolCalls[i] in m.toolCalls;
      }
      assert Uses(AssistantTurn(BlocksOf(m))) == CallIds(m.toolCalls);
    }
  }

  function ResultIds(blocks: seq<Block>): seq<string> {
    if blocks == [] then [] else (if blocks[0].ToolResult? then [blocks[0].id] else []) + ResultIds(blocks[1..])
  }

  function ToolIds(msgs: seq<Message>): seq<string> {
    if msgs == [] then [] else (if msgs[0].role == Tool then [msgs[0].toolCallId] else []) + ToolIds(msgs[1..])
  }

  lemma {:induction false} ResultIdsAppend(a: seq<Block>, b: seq<Block>)
    ensures ResultIds(a + b) == ResultIds(a) + ResultIds(b)
  {
    if a == [] {
      assert a + b == b;
    } else {
      assert (a + b)[1..] == a[1..] + b;
      ResultIdsAppend(a[1..], b);
    }
  }

  lemma {:induction false} NoResults(blocks: seq<Block>)
    requires forall b :: b in blocks ==> !b.ToolResult?
    ensures ResultIds(blocks) == []
  {
    if blocks != [] {
      assert blocks[0] in blocks;
      NoResults(blocks[1..]);
    }
  }

  lemma ResultIdsOf(m: Message)
    ensures ResultIds(BlocksOf(m)) == if m.role == Tool then [m.toolCallId] else []
  {
    if m.role == Tool {
      assert BlocksOf(m)[1..] == [];
    } else {
      if m.role == User || m.role == Assistant {
        TurnUses(m);
      }
      NoResults(BlocksOf(m));
    }
  }

  /** One result block a tool message, in order, whatever trimming did to their texts. */
  lemma {:induction false} ResultsOfShape(a: seq<Message>, b: seq<Message>)
    requires SameShapes(a, b)
    ensures ResultIds(AllBlocks(b)) == ToolIds(a)
  {
    if a != [] {
      assert SameShape(a[0], b[0]);
      assert forall i :: 0 <= i < |a[1..]| ==> a[1..][i] == a[i + 1] && b[1..][i] == b[i + 1];
      ResultsOfShape(a[1..], b[1..]);
      ResultIdsAppend(BlocksOf(b[0]), AllBlocks(b[1..]));
      ResultIdsOf(b[0]);
    }
  }

  /** The ids of the tool messages from i on that answer an earlier call, in order. */
  ghost function AnsweringIds(msgs: seq<Message>, i: nat): seq<string>
    requires i <= |msgs|
    decreases |msgs| - i
  {
    if i == |msgs| then []
    else
      (if msgs[i].role == Tool && CalledBefore(msgs, i, msgs[i].toolCallId) then [msgs[i].toolCallId] else [])
      + AnsweringIds(msgs, i + 1)
  }

  lemma {:induction false} SurvivingResults(msgs: seq<Message>, i: nat)
    requires i <= |msgs|
    ensures ToolIds(Survivors(msgs, i)) == AnsweringIds(msgs, i)
    decreases |msgs| - i
  {
    if i < |msgs| {
      var rest := Survivors(msgs, i + 1);
      SurvivingResults(msgs, i + 1);
      if Survives(msgs, i) {
        assert ([msgs[i]] + rest)[1..] == rest;
      } else {
        assert [] + rest == rest;
      }
    }
  }

  /** Whatever the client sends, after sanitising, trimming and prefixing the system prompt the model gets a
      conversation in which every result answers an earlier call, that holds every block of the trimmed history
      in order, and one result for each tool message of the client that answers an earlier call. */
  lemma PipelineIsValid(history: seq<Message>, prompt: string, text: StubText)
    ensures var msgs := [Message(System, prompt, "", [], "")] + Trimmed(Sanitised(history, {}), text);
            && WellSent(Translated(msgs, []), {})
            && Flat(Translated(msgs, [])) == AllBlocks(Trimmed(Sanitised(history, {}), text))
            && ResultIds(Flat(Translated(msgs, []))) == AnsweringIds(history, 0)
  {
    var clean := Sanitised(history, {});
    var trimmed := Trimmed(clean, text);
    SanitisedIsClean(history, {});
    ShapeKeepsAnswered(clean, trimmed, {});
    ResultsOfShape(clean, trimmed);
    SanitisedIsFilter(history);
    SurvivingResults(history, 0);
    var msgs := [Message(System, prompt, "", [], "")] + trimmed;
    assert msgs[1..] == trimmed;
    TranslationIsWellSent(msgs, [], {});
    BlocksArePreserved(msgs, []);
  }

  /** The same with positions: a result in turn j answers a call in an assistant turn i < j. */
  lemma {:induction false} ResultFollowsCall(turns: seq<Turn>, valid: set<string>, j: nat, id: string, content: string)
    requires WellSent(turns, valid) && j < |turns| && ToolResult(id, content) in turns[j].content
    ensures id in valid || exists i :: 0 <= i < j && id in Uses(turns[i])
    decreases |turns|
  {
    if j > 0 {
      ResultFollowsCall(turns[1..], valid + Uses(turns[0]), j - 1, id, content);
      if id !in valid && id !in Uses(turns[0]) {
        var i :| 0 <= i < j - 1 && id in Uses(turns[1..][i]);
        assert id in Uses(turns[i + 1]);
      }
    }
  }

  /** A turn of the tool loop keeps the history answerable: the assistant message, then a result for each
      call that was dispatched. */
  lemma {:induction false} LoopTurnKeepsAnswered(msgs: seq<Message>, turn: Message, results: seq<Message>, valid: set<string>)
    requires Answered(msgs, valid) && turn.role == Assistant
    requires forall r :: r in results ==> r.role == Tool && r.toolCallId in CallIds(turn.toolCalls)
    ensures Answered(msgs + [turn] + results, valid)
    decreases |msgs|
  {
    var all := msgs + [turn] + results;
    if msgs == [] {
      assert all[1..] == results;
      ResultsAnswered(results, valid + CallIds(turn.toolCalls));
    } else {
      assert all[1..] == msgs[1..] + [turn] + results;
      LoopTurnKeepsAnswered(msgs[1..], turn, results,
                            if msgs[0].role == Assistant then valid + CallIds(msgs[0].toolCalls) else valid);
    }
  }

  lemma {:induction false} ResultsAnswered(results: seq<Message>, valid: set<string>)
    requires forall r :: r in results ==> r.role == Tool && r.toolCallId in valid
    ensures Answered(results, valid)
  {
    if results != [] {
      assert results[0] in results;
      ResultsAnswered(results[1..], valid);
    }
  }
}
