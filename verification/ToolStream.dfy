/** Which events of the stream the loop passes on, event by event. */
module ToolStream {
  import opened ToolCalls

  /** A block with this index started before event k. */
  ghost predicate StartedBefore(events: seq<StreamEvent>, k: int, index: int) {
    exists j :: 0 <= j < k && j < |events| && events[j].BlockStart? && events[j].index == index
  }

  /** Event k is passed on as e: the start of a tool block, or a non-empty piece of a block that has started. */
  ghost predicate PassedAs(events: seq<StreamEvent>, k: int, e: LlmEvent) {
    0 <= k < |events| &&
    match events[k]
    case BlockStart(index, kind, id, name) => kind == ToolUse && e == CallDelta(index, id, name, "")
    case TextDelta(index, text) => text != "" && StartedBefore(events, k, index) && e == Text(text)
    case JsonDelta(index, fragment) => fragment != "" && StartedBefore(events, k, index) && e == CallDelta(index, "", "", fragment)
    case Other => false
  }

  lemma StartedMeans(events: seq<StreamEvent>, k: nat, index: int)
    requires k <= |events|
    ensures index in Started(events[..k]) <==> StartedBefore(events, k, index)
  {
    if index in Started(events[..k]) {
      var e :| e in events[..k] && e.BlockStart? && e.index == index;
      var j :| 0 <= j < k && events[..k][j] == e;
    }
    if StartedBefore(events, k, index) {
      var j :| 0 <= j < k && events[j].BlockStart? && events[j].index == index;
      assert events[j] in events[..k];
    }
  }

  lemma EmittedByMeans(events: seq<StreamEvent>, k: nat)
    requires k < |events|
    ensures var sent := EmittedBy(events[k], Started(events[..k]));
            |sent| <= 1 && forall e :: PassedAs(events, k, e) <==> sent == [e]
  {
    match events[k]
    case BlockStart(_, _, _, _) =>
    case TextDelta(index, _) => StartedMeans(events, k, index);
    case JsonDelta(index, _) => StartedMeans(events, k, index);
    case Other =>
  }

  /** `at` are, in order, the positions of the events passed on among the first k, and `out` what they were passed on as. */
  ghost predicate Passes(events: seq<StreamEvent>, k: nat, out: seq<LlmEvent>, at: seq<nat>) {
    && |at| == |out|
    && (forall i :: 0 <= i < |at| ==> at[i] < k && PassedAs(events, at[i], out[i]))
    && (forall i, j :: 0 <= i < j < |at| ==> at[i] < at[j])
    && (forall j: nat, e :: j < k && PassedAs(events, j, e) ==> j in at)
  }

  lemma PassesNext(events: seq<StreamEvent>, k: nat, out: seq<LlmEvent>, at: seq<nat>, sent: seq<LlmEvent>)
    requires k < |events| && Passes(events, k, out, at) && |sent| <= 1
    requires forall e :: PassedAs(events, k, e) <==> sent == [e]
    ensures Passes(events, k + 1, out + sent, at + if sent == [] then [] else [k])
  {
    if sent != [] {
      assert sent == [sent[0]];
      forall j | j in at ensures j in at + [k] {
      }
      assert k in at + [k];
    } else {
      assert out + sent == out && at + [] == at;
    }
  }

  /** The loop passes on exactly those events, in order, each as what it stands for. */
  lemma {:induction false} EmittedMeans(events: seq<StreamEvent>, k: nat) returns (at: seq<nat>)
    requires k <= |events|
    ensures Passes(events, k, Emitted(events[..k]), at)
  {
    at := [];
    if k > 0 {
      at := EmittedMeans(events, k - 1);
      EmittedNext(events, k - 1);
      EmittedByMeans(events, k - 1);
      var sent := EmittedBy(events[k - 1], Started(events[..k - 1]));
      PassesNext(events, k - 1, Emitted(events[..k - 1]), at, sent);
      at := at + if sent == [] then [] else [k - 1];
    }
  }
}
