/** Which tool results are trimmed, said of the messages themselves. */
module ChatTrim {
  import opened ChatHistory

  /** Messages a, b and c are tool messages behind message i, in this order. */
  predicate Follow(msgs: seq<Message>, i: int, a: nat, b: nat, c: nat) {
    i < a < b < c < |msgs| && msgs[a].role == Tool && msgs[b].role == Tool && msgs[c].role == Tool
  }

  /** Three more tool messages come after message i. */
  ghost predicate ThreeFollow(msgs: seq<Message>, i: int) {
    exists a, b, c :: Follow(msgs, i, a, b, c)
  }

  /** The first tool message from i on. */
  lemma {:induction false} NextTool(msgs: seq<Message>, i: nat) returns (a: nat)
    requires i <= |msgs|
    ensures i <= a <= |msgs|
    ensures if a < |msgs| then msgs[a].role == Tool && Tools(msgs[i..]) == 1 + Tools(msgs[a + 1..]) else Tools(msgs[i..]) == 0
    decreases |msgs| - i
  {
    a := i;
    if i < |msgs| {
      assert msgs[i..][1..] == msgs[i + 1..];
      if msgs[i].role != Tool {
        a := NextTool(msgs, i + 1);
      }
    }
  }

  lemma {:induction false} ToolCounts(msgs: seq<Message>, i: nat, a: nat)
    requires i <= a < |msgs| && msgs[a].role == Tool
    ensures Tools(msgs[i..]) >= 1 + Tools(msgs[a + 1..])
    decreases a - i
  {
    assert msgs[i..][1..] == msgs[i + 1..];
    if i < a {
      ToolCounts(msgs, i + 1, a);
    }
  }

  lemma OneBehind(msgs: seq<Message>, i: nat, a: nat, n: nat)
    requires i < a < |msgs| && msgs[a].role == Tool && ToolsBehind(msgs, a) >= n
    ensures ToolsBehind(msgs, i) >= n + 1
  {
    ToolCounts(msgs, i + 1, a);
  }

  lemma Enough(msgs: seq<Message>, i: nat, a: nat, b: nat, c: nat)
    requires Follow(msgs, i, a, b, c)
    ensures ToolsBehind(msgs, i) >= 3
  {
    OneBehind(msgs, b, c, 0);
    OneBehind(msgs, a, b, 1);
    OneBehind(msgs, i, a, 2);
  }

  lemma Three(msgs: seq<Message>, i: nat) returns (a: nat, b: nat, c: nat)
    requires i < |msgs| && ToolsBehind(msgs, i) >= 3
    ensures Follow(msgs, i, a, b, c)
  {
    a := NextTool(msgs, i + 1);
    b := NextTool(msgs, a + 1);
    c := NextTool(msgs, b + 1);
  }

  lemma ThreeBehind(msgs: seq<Message>, i: nat)
    requires i < |msgs|
    ensures ToolsBehind(msgs, i) >= 3 <==> ThreeFollow(msgs, i)
  {
    if ToolsBehind(msgs, i) >= 3 {
      var a, b, c := Three(msgs, i);
    }
    if a, b, c :| Follow(msgs, i, a, b, c) {
      Enough(msgs, i, a, b, c);
    }
  }

  /** Exactly the tool results of more than 2000 characters that three tool messages follow are replaced, by a
      stub with the same role, name and id; everything else stays. */
  lemma TrimmedMeans(msgs: seq<Message>, text: StubText, i: nat)
    requires i < |msgs|
    ensures var m := msgs[i];
            Trimmed(msgs, text)[i]
            == if m.role == Tool && |m.content| > 2_000 && ThreeFollow(msgs, i)
               then Message(Tool, text(m.name, |m.content|), m.name, [], m.toolCallId) else m
  {
    ThreeBehind(msgs, i);
  }
}
