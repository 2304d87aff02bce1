/** What the translated conversation does not promise: when its turns alternate, and when every call is
    answered. */
module ChatTurns {
  import opened ChatHistory

  // ---------- alternation ----------

  datatype Side = Nobody | UserSide | AssistantSide

  function SideOf(t: Turn): Side {
    if t.UserTurn? then UserSide else AssistantSide
  }

  /** No turn is on the side of the one before it; `last` is the side before the first. */
  predicate Alternating(turns: seq<Turn>, last: Side) {
    turns == [] || (SideOf(turns[0]) != last && Alternating(turns[1..], SideOf(turns[0])))
  }

  function Speaker(m: Message): Side {
    if m.role == User then UserSide else AssistantSide
  }

  /** The side that spoke last once waiting results have been sent. */
  function Flushed(waiting: bool, last: Side): Side {
    if waiting then UserSide else last
  }

  /** No results follow a user turn, no user text follows results or a user turn, and no assistant text or call
      follows an assistant turn.  `waiting` tells whether results wait to be sent. */
  predicate Orderly(msgs: seq<Message>, waiting: bool, last: Side)
    decreases |msgs|
  {
    if msgs == [] then waiting ==> last != UserSide
    else
      var m, rest := msgs[0], msgs[1..];
      match m.role
      case Tool => Orderly(rest, true, last)
      case System => Orderly(rest, waiting, last)
      case Unknown => Orderly(rest, waiting, last)
      case _ =>
        && (waiting ==> last != UserSide)
        && if BlocksOf(m) == [] then Orderly(rest, false, Flushed(waiting, last))
           else Flushed(waiting, last) != Speaker(m) && Orderly(rest, false, Speaker(m))
  }

  /** The turns alternate exactly for orderly histories. */
  lemma {:induction false} AlternatesWhenOrderly(msgs: seq<Message>, pending: seq<Block>, last: Side)
    ensures Alternating(Translated(msgs, pending), last) <==> Orderly(msgs, pending != [], last)
    decreases |msgs|
  {
    if msgs != [] {
      var m := msgs[0];
      var rest := Translated(msgs[1..], Waiting(m, pending));
      if m.role == User || m.role == Assistant {
        AlternatesWhenOrderly(msgs[1..], [], Flushed(pending != [], last));
        AlternatesWhenOrderly(msgs[1..], [], Speaker(m));
        SentThen(m, pending, rest, last);
      } else {
        AlternatesWhenOrderly(msgs[1..], Waiting(m, pending), last);
        assert [] + rest == rest;
      }
    }
  }

  lemma SentThen(m: Message, pending: seq<Block>, rest: seq<Turn>, last: Side)
    requires m.role == User || m.role == Assistant
    ensures Alternating(Sent(m, pending) + rest, last) <==>
            && (pending != [] ==> last != UserSide)
            && if BlocksOf(m) == [] then Alternating(rest, Flushed(pending != [], last))
               else Flushed(pending != [], last) != Speaker(m) && Alternating(rest, Speaker(m))
  {
    var own := Sent(m, []);
    assert own == [] ==> own + rest == rest;
    assert own != [] ==> (own + rest)[1..] == rest;
    var all := Flush(pending) + (own + rest);
    assert Sent(m, pending) + rest == all;
    assert pending == [] ==> all == own + rest;
    assert pending != [] ==> all[1..] == own + rest;
  }

  /** A question asked right after tool results: two user turns in a row. */
  lemma UserAfterResults()
    ensures var call := Message(Assistant, "", "", [ToolCall("c", "f", "")], "");
            var result, ask := Message(Tool, "r", "f", [], "c"), Message(User, "q", "", [], "");
            !Alternating(Translated([ask, call, result, ask], []), Nobody)
  {
    var call := Message(Assistant, "", "", [ToolCall("c", "f", "")], "");
    var result, ask := Message(Tool, "r", "f", [], "c"), Message(User, "q", "", [], "");
    var msgs := [ask, call, result, ask];
    AlternatesWhenOrderly(msgs, [], Nobody);
    assert msgs[1..] == [call, result, ask] && msgs[1..][1..] == [result, ask] && msgs[1..][1..][1..] == [ask];
    assert !IsSpace('q');
    assert !Blank("q") by {
      assert "q"[0] == 'q';
    }
    assert BlocksOf(ask) == [Text("q")] && |BlocksOf(call)| >= |ToolUses(call.toolCalls)| == 1;
    assert !Orderly([ask], true, AssistantSide);
    assert !Orderly([result, ask], false, AssistantSide);
    assert !Orderly([call, result, ask], false, UserSide);
  }

  // ---------- answers ----------

  /** Every call is answered by a later result. */
  predicate UsesAnswered(blocks: seq<Block>) {
    blocks == [] ||
    ((blocks[0].ToolUse? ==> blocks[0].id in ResultIds(blocks[1..])) && UsesAnswered(blocks[1..]))
  }

  /** Every call of an assistant message is answered by a later tool message. */
  predicate CallsAnswered(msgs: seq<Message>) {
    msgs == [] ||
    (&& (msgs[0].role == Assistant ==> forall c :: c in msgs[0].toolCalls ==> c.id in ToolIds(msgs[1..]))
     && CallsAnswered(msgs[1..]))
  }

  lemma {:induction false} UsesOfOne(blocks: seq<Block>, rest: seq<Block>)
    requires forall b :: b in blocks ==> !b.ToolResult?
    ensures UsesAnswered(blocks + rest) <==>
            (forall b :: b in blocks && b.ToolUse? ==> b.id in ResultIds(rest)) && UsesAnswered(rest)
  {
    if blocks == [] {
      assert blocks + rest == rest;
    } else {
      assert (blocks + rest)[1..] == blocks[1..] + rest;
      UsesOfOne(blocks[1..], rest);
      NoResults(blocks[1..]);
      ResultIdsAppend(blocks[1..], rest);
      assert ResultIds(blocks[1..] + rest) == ResultIds(rest);
      assert forall b :: b in blocks <==> b == blocks[0] || b in blocks[1..];
    }
  }

  lemma CallsAreUses(m: Message)
    requires m.role == Assistant
    ensures forall b :: b in BlocksOf(m) && b.ToolUse? ==> exists c :: c in m.toolCalls && c.id == b.id
    ensures forall c :: c in m.toolCalls ==> exists b :: b in BlocksOf(m) && b.ToolUse? && b.id == c.id
  {
    var uses := ToolUses(m.toolCalls);
    forall b | b in BlocksOf(m) && b.ToolUse? ensures exists c :: c in m.toolCalls && c.id == b.id {
      var i :| 0 <= i < |uses| && uses[i] == b;
      assert m.toolCalls[i] in m.toolCalls;
    }
    forall c | c in m.toolCalls ensures exists b :: b in BlocksOf(m) && b.ToolUse? && b.id == c.id {
      var i :| 0 <= i < |m.toolCalls| && m.toolCalls[i] == c;
      assert uses[i] in BlocksOf(m);
    }
  }

  lemma {:induction false} AnsweredInBlocks(msgs: seq<Message>)
    ensures UsesAnswered(AllBlocks(msgs)) <==> CallsAnswered(msgs)
    ensures ResultIds(AllBlocks(msgs)) == ToolIds(msgs)
  {
    if msgs != [] {
      var m, rest := msgs[0], AllBlocks(msgs[1..]);
      AnsweredInBlocks(msgs[1..]);
      ResultIdsAppend(BlocksOf(m), rest);
      ResultIdsOf(m);
      if m.role == Tool {
        assert (BlocksOf(m) + rest)[1..] == rest;
      } else {
        if m.role == User || m.role == Assistant {
          TurnUses(m);
        }
        UsesOfOne(BlocksOf(m), rest);
        if m.role == Assistant {
          CallsAreUses(m);
        }
      }
    }
  }

  /** Sanitising drops no answer to a call it knows. */
  lemma {:induction false} AnswersSurvive(msgs: seq<Message>, valid: set<string>, id: string)
    requires id in valid
    ensures id in ToolIds(Sanitised(msgs, valid)) <==> id in ToolIds(msgs)
    decreases |msgs|
  {
    if msgs != [] {
      var m := msgs[0];
      var valid' := if m.role == Assistant then valid + CallIds(m.toolCalls) else valid;
      AnswersSurvive(msgs[1..], valid, id);
      AnswersSurvive(msgs[1..], valid', id);
      HeadId(m, Sanitised(msgs[1..], valid), id);
      HeadId(m, Sanitised(msgs[1..], valid'), id);
    }
  }

  lemma HeadId(m: Message, rest: seq<Message>, id: string)
    ensures id in ToolIds([m] + rest) <==> (m.role == Tool && m.toolCallId == id) || id in ToolIds(rest)
  {
    assert ([m] + rest)[1..] == rest;
  }

  lemma {:induction false} SanitisedAnswers(msgs: seq<Message>, valid: set<string>)
    ensures CallsAnswered(Sanitised(msgs, valid)) <==> CallsAnswered(msgs)
    decreases |msgs|
  {
    if msgs != [] {
      var m, rest := msgs[0], msgs[1..];
      var valid' := if m.role == Assistant then valid + CallIds(m.toolCalls) else valid;
      SanitisedAnswers(rest, valid);
      SanitisedAnswers(rest, valid');
      forall c | c in m.toolCalls && m.role == Assistant ensures c.id in ToolIds(Sanitised(rest, valid')) <==> c.id in ToolIds(rest) {
        AnswersSurvive(rest, valid', c.id);
      }
      assert ([m] + Sanitised(rest, valid'))[1..] == Sanitised(rest, valid');
      assert ([m] + Sanitised(rest, valid))[1..] == Sanitised(rest, valid);
    }
  }

  lemma {:induction false} TrimmedAnswers(a: seq<Message>, b: seq<Message>)
    requires SameShapes(a, b)
    ensures ToolIds(a) == ToolIds(b) && (CallsAnswered(a) <==> CallsAnswered(b))
  {
    if a != [] {
      assert SameShape(a[0], b[0]);
      assert forall i :: 0 <= i < |a[1..]| ==> a[1..][i] == a[i + 1] && b[1..][i] == b[i + 1];
      TrimmedAnswers(a[1..], b[1..]);
    }
  }

  /** For any history the client sends: every call that reaches the model is answered exactly when every call in
      the client's history is answered by a later tool message, and the turns alternate exactly when the
      sanitised and trimmed history is orderly. */
  lemma PipelineTurns(history: seq<Message>, prompt: string, text: StubText)
    ensures var trimmed := Trimmed(Sanitised(history, {}), text);
            var turns := Translated([Message(System, prompt, "", [], "")] + trimmed, []);
            && (UsesAnswered(Flat(turns)) <==> CallsAnswered(history))
            && (Alternating(turns, Nobody) <==> Orderly(trimmed, false, Nobody))
  {
    var clean := Sanitised(history, {});
    var trimmed := Trimmed(clean, text);
    var msgs := [Message(System, prompt, "", [], "")] + trimmed;
    PipelineIsValid(history, prompt, text);
    AnsweredInBlocks(trimmed);
    TrimmedAnswers(clean, trimmed);
    SanitisedAnswers(history, {});
    AlternatesWhenOrderly(msgs, [], Nobody);
    assert msgs[1..] == trimmed;
  }
}
