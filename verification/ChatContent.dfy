/** What the turns carry, kind by kind: the texts said, the calls made and the results given, with every field in
    its place. */
module ChatContent {
  import opened ChatHistory

  datatype Answer = Answer(id: string, content: string)

  /** Texts, calls and results, each kind in order. */
  datatype Content = Content(texts: seq<string>, calls: seq<ToolCall>, answers: seq<Answer>)

  const NOTHING := Content([], [], [])

  function Plus(a: Content, b: Content): Content {
    Content(a.texts + b.texts, a.calls + b.calls, a.answers + b.answers)
  }

  // ---------- of the blocks sent ----------

  function ContentOfBlock(b: Block): Content {
    match b
    case Text(text) => Content([text], [], [])
    case ToolUse(id, name, input) => Content([], [ToolCall(id, name, input)], [])
    case ToolResult(id, content) => Content([], [], [Answer(id, content)])
  }

  function ContentOfBlocks(blocks: seq<Block>): Content {
    if blocks == [] then NOTHING else Plus(ContentOfBlock(blocks[0]), ContentOfBlocks(blocks[1..]))
  }

  // ---------- of the messages ----------

  /** Something other than white space. */
  predicate Says(content: string) {
    exists c :: c in content && c !in [' ', '\t', '\n', '\r', '\U{000B}', '\U{000C}', '\U{0085}', '\U{00A0}']
  }

  function ContentOfMessage(m: Message): Content {
    Content(if (m.role == User || m.role == Assistant) && Says(m.content) then [m.content] else [],
            if m.role == Assistant then m.toolCalls else [],
            if m.role == Tool then [Answer(m.toolCallId, m.content)] else [])
  }

  function ContentOfMessages(msgs: seq<Message>): Content {
    if msgs == [] then NOTHING else Plus(ContentOfMessage(msgs[0]), ContentOfMessages(msgs[1..]))
  }

  // ---------- the two agree ----------

  lemma PlusAssociates(a: Content, b: Content, c: Content)
    ensures Plus(Plus(a, b), c) == Plus(a, Plus(b, c))
  {
  }

  lemma PlusNothing(a: Content)
    ensures Plus(NOTHING, a) == a == Plus(a, NOTHING)
  {
  }

  lemma {:induction false} ContentAppend(a: seq<Block>, b: seq<Block>)
    ensures ContentOfBlocks(a + b) == Plus(ContentOfBlocks(a), ContentOfBlocks(b))
  {
    if a == [] {
      assert a + b == b;
      PlusNothing(ContentOfBlocks(b));
    } else {
      assert (a + b)[1..] == a[1..] + b;
      ContentAppend(a[1..], b);
      PlusAssociates(ContentOfBlock(a[0]), ContentOfBlocks(a[1..]), ContentOfBlocks(b));
    }
  }

  lemma ContentOfOne(b: Block)
    ensures ContentOfBlocks([b]) == ContentOfBlock(b)
  {
    PlusNothing(ContentOfBlock(b));
    assert [b][1..] == [];
  }

  lemma {:induction false} ContentOfCalls(calls: seq<ToolCall>)
    ensures ContentOfBlocks(ToolUses(calls)) == Content([], calls, [])
  {
    if calls != [] {
      ContentOfCalls(calls[1..]);
      assert ToolUses(calls)[1..] == ToolUses(calls[1..]);
      assert [calls[0]] + calls[1..] == calls;
    }
  }

  lemma BlankSaysNothing(s: string)
    ensures Blank(s) <==> !Says(s)
  {
    if !Blank(s) {
      var i :| 0 <= i < |s| && !IsSpace(s[i]);
      assert s[i] in s;
    }
  }

  lemma ContentOfTexts(content: string)
    ensures ContentOfBlocks(TextBlocks(content)) == Content(if Says(content) then [content] else [], [], [])
  {
    BlankSaysNothing(content);
    ContentOfOne(Text(content));
  }

  lemma MessageContent(m: Message)
    ensures ContentOfBlocks(BlocksOf(m)) == ContentOfMessage(m)
  {
    ContentOfTexts(m.content);
    if m.role == Assistant {
      ContentOfCalls(m.toolCalls);
      ContentAppend(TextBlocks(m.content), ToolUses(m.toolCalls));
    } else if m.role == Tool {
      ContentOfOne(ToolResult(m.toolCallId, m.content));
    }
  }

  lemma {:induction false} MessagesContent(msgs: seq<Message>)
    ensures ContentOfBlocks(AllBlocks(msgs)) == ContentOfMessages(msgs)
  {
    if msgs != [] {
      MessagesContent(msgs[1..]);
      MessageContent(msgs[0]);
      ContentAppend(BlocksOf(msgs[0]), AllBlocks(msgs[1..]));
    }
  }

  /** The turns carry exactly the non-blank texts of users and assistants, the assistants' calls with id, name and
      arguments, and the tools' results with id and content, each kind in the order of the messages. */
  lemma ContentArrives(msgs: seq<Message>)
    ensures ContentOfBlocks(Flat(Translated(msgs, []))) == ContentOfMessages(msgs)
  {
    BlocksArePreserved(msgs, []);
    assert [] + AllBlocks(msgs) == AllBlocks(msgs);
    MessagesContent(msgs);
  }

  // ---------- who says it ----------

  /** The texts of one side's turns. */
  function TextsOfSide(turns: seq<Turn>, user: bool): seq<string> {
    if turns == [] then []
    else (if turns[0].UserTurn? == user then ContentOfBlocks(turns[0].content).texts else []) + TextsOfSide(turns[1..], user)
  }

  /** The non-blank texts of users, or of assistants. */
  function TextsOfRole(msgs: seq<Message>, user: bool): seq<string> {
    if msgs == [] then []
    else
      (if msgs[0].role == (if user then User else Assistant) && Says(msgs[0].content) then [msgs[0].content] else [])
      + TextsOfRole(msgs[1..], user)
  }

  predicate OnlyResults(blocks: seq<Block>) {
    forall b :: b in blocks ==> b.ToolResult?
  }

  lemma {:induction false} ResultsSayNothing(blocks: seq<Block>)
    requires OnlyResults(blocks)
    ensures ContentOfBlocks(blocks).texts == []
  {
    if blocks != [] {
      assert blocks[0] in blocks;
      ResultsSayNothing(blocks[1..]);
    }
  }

  lemma {:induction false} SideAppend(a: seq<Turn>, b: seq<Turn>, user: bool)
    ensures TextsOfSide(a + b, user) == TextsOfSide(a, user) + TextsOfSide(b, user)
  {
    if a == [] {
      assert a + b == b;
    } else {
      assert (a + b)[1..] == a[1..] + b;
      SideAppend(a[1..], b, user);
    }
  }

  lemma SideOfOne(turns: seq<Turn>, user: bool)
    requires |turns| <= 1
    ensures TextsOfSide(turns, user)
            == if turns != [] && turns[0].UserTurn? == user then ContentOfBlocks(turns[0].content).texts else []
  {
    if turns != [] {
      assert turns[1..] == [];
    }
  }

  lemma SentBySide(m: Message, pending: seq<Block>, user: bool)
    requires OnlyResults(pending)
    ensures TextsOfSide(Sent(m, pending), user)
            == if m.role == (if user then User else Assistant) && Says(m.content) then [m.content] else []
    ensures OnlyResults(Waiting(m, pending))
  {
    if m.role == User || m.role == Assistant {
      var own := Sent(m, []);
      assert Sent(m, pending) == Flush(pending) + own;
      SideAppend(Flush(pending), own, user);
      SideOfOne(Flush(pending), user);
      SideOfOne(own, user);
      ResultsSayNothing(pending);
      MessageContent(m);
    }
  }

  lemma {:induction false} TextsBySide(msgs: seq<Message>, pending: seq<Block>, user: bool)
    requires OnlyResults(pending)
    ensures TextsOfSide(Translated(msgs, pending), user) == TextsOfRole(msgs, user)
    decreases |msgs|
  {
    if msgs == [] {
      SideOfOne(Flush(pending), user);
      ResultsSayNothing(pending);
    } else {
      var m := msgs[0];
      SentBySide(m, pending, user);
      TextsBySide(msgs[1..], Waiting(m, pending), user);
      SideAppend(Sent(m, pending), Translated(msgs[1..], Waiting(m, pending)), user);
    }
  }

  /** Users speak in user turns and assistants in assistant turns. */
  lemma SidesAreKept(msgs: seq<Message>, user: bool)
    ensures TextsOfSide(Translated(msgs, []), user) == TextsOfRole(msgs, user)
  {
    TextsBySide(msgs, [], user);
  }

  // ---------- order inside a turn ----------

  /** Nothing but calls behind the first block of an assistant turn, so its text comes first. */
  predicate TextFirst(t: Turn) {
    t.AssistantTurn? ==> forall i :: 1 <= i < |t.content| ==> t.content[i].ToolUse?
  }

  lemma {:induction false} TextsComeFirst(msgs: seq<Message>, pending: seq<Block>)
    ensures forall t :: t in Translated(msgs, pending) ==> TextFirst(t)
    decreases |msgs|
  {
    if msgs != [] {
      TextsComeFirst(msgs[1..], Waiting(msgs[0], pending));
      forall t | t in Sent(msgs[0], pending) ensures TextFirst(t) {
        if t.AssistantTurn? {
          assert t == AssistantTurn(BlocksOf(msgs[0])) || t in Flush(pending);
        }
      }
    }
  }
}
