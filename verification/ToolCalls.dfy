/** Tool calls streamed by the Anthropic API: the loop that turns content-block events into deltas, and
    the chat handler that assembles the deltas and puts the calls in order. */
module ToolCalls {

  datatype Kind = ToolUse | TextBlock | OtherBlock

  /** The content-block events of the stream; `Other` stands for pings, stops and usage. */
  datatype StreamEvent =
    | BlockStart(index: int, kind: Kind, id: string, name: string)
    | TextDelta(index: int, text: string)
    | JsonDelta(index: int, fragment: string)
    | Other

  /** What the chat handler receives. */
  datatype LlmEvent = Text(delta: string) | CallDelta(index: int, id: string, name: string, fragment: string)

  datatype Call = Call(id: string, name: string, arguments: string)

  datatype Assembly = Assembly(text: string, calls: map<int, Call>)

  // ---------- events to deltas ----------

  function Started(events: seq<StreamEvent>): set<int> {
    set e | e in events && e.BlockStart? :: e.index
  }

  /** What event e makes the loop emit once the blocks in `started` are known. */
  function EmittedBy(e: StreamEvent, started: set<int>): seq<LlmEvent> {
    match e
    case BlockStart(index, kind, id, name) => if kind == ToolUse then [CallDelta(index, id, name, "")] else []
    case TextDelta(index, text) => if index in started && text != "" then [Text(text)] else []
    case JsonDelta(index, fragment) =>
      if index in started && fragment != "" then [CallDelta(index, "", "", fragment)] else []
    case Other => []
  }

  function Emitted(events: seq<StreamEvent>): seq<LlmEvent> {
    if events == [] then []
    else
      var before := events[..|events| - 1];
      Emitted(before) + EmittedBy(events[|events| - 1], Started(before))
  }

  lemma EmittedNext(events: seq<StreamEvent>, k: nat)
    requires k < |events|
    ensures Started(events[..k + 1]) == Started(events[..k]) + if events[k].BlockStart? then {events[k].index} else {}
    ensures Emitted(events[..k + 1]) == Emitted(events[..k]) + EmittedBy(events[k], Started(events[..k]))
  {
    assert events[..k + 1] == events[..k] + [events[k]];
    assert events[..k + 1][..k] == events[..k];
  }

  method StreamLoop(events: seq<StreamEvent>) returns (out: seq<LlmEvent>)
    ensures out == Emitted(events)
  {
    out := [];
    var blocks: map<int, Kind> := map[];
    for k := 0 to |events|
      invariant blocks.Keys == Started(events[..k])
      invariant out == Emitted(events[..k])
    {
      EmittedNext(events, k);
      ghost var sent := EmittedBy(events[k], blocks.Keys);
      ghost var before := out;
      match events[k] {
        case BlockStart(index, kind, id, name) =>
          blocks := blocks[index := kind];
          if kind == ToolUse {
            out := out + [CallDelta(index, id, name, "")];
          }
        case TextDelta(index, text) =>
          if index in blocks && text != "" {
            out := out + [Text(text)];
          }
        case JsonDelta(index, fragment) =>
          if index in blocks && fragment != "" {
            out := out + [CallDelta(index, "", "", fragment)];
          }
        case Other =>
      }
      assert out == before + sent;
    }
    assert events[..|events|] == events;
  }

  // ---------- deltas to calls ----------

  function Absorb(asm: Assembly, e: LlmEvent): Assembly {
    match e
    case Text(delta) => asm.(text := asm.text + delta)
    case CallDelta(index, id, name, fragment) =>
      var was := if index in asm.calls then asm.calls[index] else Call("", "", "");
      asm.(calls := asm.calls[index := Call(if id != "" then id else was.id, if name != "" then name else was.name,
                                            was.arguments + fragment)])
  }

  function Assembled(stream: seq<LlmEvent>): Assembly {
    if stream == [] then Assembly("", map[]) else Absorb(Assembled(stream[..|stream| - 1]), stream[|stream| - 1])
  }

  method AssembleCalls(stream: seq<LlmEvent>) returns (text: string, calls: map<int, Call>)
    ensures Assembly(text, calls) == Assembled(stream)
  {
    text, calls := "", map[];
    for k := 0 to |stream|
      invariant Assembly(text, calls) == Assembled(stream[..k])
    {
      assert stream[..k + 1][..k] == stream[..k];
      match stream[k] {
        case Text(delta) =>
          text := text + delta;
        case CallDelta(index, id, name, fragment) =>
          var call := if index in calls then calls[index] else Call("", "", "");
          if id != "" {
            call := call.(id := id);
          }
          if name != "" {
            call := call.(name := name);
          }
          if fragment != "" {
            call := call.(arguments := call.arguments + fragment);
          } else {
            assert call.arguments + fragment == call.arguments;
          }
          calls := calls[index := call];
      }
    }
    assert stream[..|stream|] == stream;
  }

  // ---------- what arrives is what was streamed ----------

  /** Each index starts at most one block, and fragments follow the start of their tool block. */
  predicate WellFormed(events: seq<StreamEvent>) {
    events == [] ||
    (var before, e := events[..|events| - 1], events[|events| - 1];
     && WellFormed(before)
     && (e.BlockStart? ==> e.index !in Started(before))
     && (e.JsonDelta? ==> e.index in ToolStarts(before))
     && (e.TextDelta? ==> e.index in Started(before)))
  }

  function ToolStarts(events: seq<StreamEvent>): set<int> {
    set e | e in events && e.BlockStart? && e.kind == ToolUse :: e.index
  }

  function Fragments(events: seq<StreamEvent>, index: int): string {
    if events == [] then ""
    else
      var e := events[|events| - 1];
      Fragments(events[..|events| - 1], index) + if e.JsonDelta? && e.index == index then e.fragment else ""
  }

  function Texts(events: seq<StreamEvent>): string {
    if events == [] then ""
    else
      var e := events[|events| - 1];
      Texts(events[..|events| - 1]) + if e.TextDelta? then e.text else ""
  }

  /** The calls are those of the tool blocks, each with the id and name of its start and its own
      fragments in order; the text is every text delta in order. */
  ghost predicate Exact(events: seq<StreamEvent>, asm: Assembly) {
    && asm.text == Texts(events)
    && asm.calls.Keys == ToolStarts(events)
    && (forall e :: e in events && e.BlockStart? && e.kind == ToolUse ==> ExactAt(e, events, asm))
  }

  /** However the blocks interleave. */
  lemma {:induction false} CallsAreExact(events: seq<StreamEvent>)
    requires WellFormed(events)
    ensures Exact(events, Assembled(Emitted(events)))
  {
    if events != [] {
      var n := |events| - 1;
      var before, e := events[..n], events[n];
      CallsAreExact(before);
      assert events == before + [e];
      AssembledAfter(Emitted(before), EmittedBy(e, Started(before)));
      if e.BlockStart? && e.kind == ToolUse {
        StepStart(before, e, Assembled(Emitted(before)));
      } else {
        StepOther(before, e, Assembled(Emitted(before)));
      }
    }
  }

  lemma AssembledAfter(stream: seq<LlmEvent>, sent: seq<LlmEvent>)
    requires |sent| <= 1
    ensures Assembled(stream + sent) == AbsorbAll(Assembled(stream), sent)
  {
    if sent == [] {
      assert stream + sent == stream;
    } else {
      assert (stream + sent)[..|stream + sent| - 1] == stream;
    }
  }

  lemma ToolStartsAreStarts(events: seq<StreamEvent>)
    ensures ToolStarts(events) <= Started(events)
  {
  }

  function AbsorbAll(asm: Assembly, sent: seq<LlmEvent>): Assembly
    requires |sent| <= 1
  {
    if sent == [] then asm else Absorb(asm, sent[0])
  }

  lemma ToolStartsNext(before: seq<StreamEvent>, e: StreamEvent)
    ensures ToolStarts(before + [e]) == ToolStarts(before) + if e.BlockStart? && e.kind == ToolUse then {e.index} else {}
  {
    var events := before + [e];
    assert forall d :: d in events <==> d in before || d == e;
  }

  ghost predicate ExactAt(d: StreamEvent, events: seq<StreamEvent>, asm: Assembly)
    requires d.BlockStart?
  {
    d.index in asm.calls && asm.calls[d.index] == Call(d.id, d.name, Fragments(events, d.index))
  }

  lemma StepStart(before: seq<StreamEvent>, e: StreamEvent, asm: Assembly)
    requires WellFormed(before) && e.BlockStart? && e.kind == ToolUse && e.index !in Started(before) && Exact(before, asm)
    ensures Exact(before + [e], Absorb(asm, CallDelta(e.index, e.id, e.name, "")))
  {
    var events := before + [e];
    var asm' := Absorb(asm, CallDelta(e.index, e.id, e.name, ""));
    assert events[..|events| - 1] == before;
    ToolStartsAreStarts(before);
    ToolStartsNext(before, e);
    assert ExactAt(e, events, asm') by {
      NoFragments(before, e.index);
    }
    forall d | d in events && d.BlockStart? && d.kind == ToolUse ensures ExactAt(d, events, asm') {
      if d != e {
        assert d in before;
        assert ExactAt(d, before, asm);
        assert d.index in ToolStarts(before);
        assert asm'.calls[d.index] == asm.calls[d.index];
        assert Fragments(events, d.index) == Fragments(before, d.index) + "";
      }
    }
    assert Texts(events) == Texts(before) + "";
    assert asm'.calls.Keys == asm.calls.Keys + {e.index};
  }

  lemma StepOther(before: seq<StreamEvent>, e: StreamEvent, asm: Assembly)
    requires !(e.BlockStart? && e.kind == ToolUse) && Exact(before, asm)
    requires e.JsonDelta? ==> e.index in ToolStarts(before)
    requires e.TextDelta? ==> e.index in Started(before)
    ensures Exact(before + [e], AbsorbAll(asm, EmittedBy(e, Started(before))))
  {
    var events := before + [e];
    assert events[..|events| - 1] == before;
    ToolStartsAreStarts(before);
    ToolStartsNext(before, e);
    var asm' := AbsorbAll(asm, EmittedBy(e, Started(before)));
    forall d | d in events && d.BlockStart? && d.kind == ToolUse ensures ExactAt(d, events, asm') {
      assert d in before;
      assert ExactAt(d, before, asm);
    }
  }

  lemma NoFragments(events: seq<StreamEvent>, index: int)
    requires WellFormed(events) && index !in Started(events)
    ensures Fragments(events, index) == ""
  {
  }

  // ---------- order ----------

  predicate Increasing(keys: seq<int>) {
    forall p, q :: 0 <= p < q < |keys| ==> keys[p] < keys[q]
  }

  ghost predicate SortedTo(keys: seq<int>, i: nat)
    requires i <= |keys|
  {
    forall p, q :: 0 <= p < i && p < q < |keys| ==> keys[p] <= keys[q]
  }

  ghost predicate LeastUpTo(keys: seq<int>, i: nat, j: nat)
    requires i < j <= |keys|
  {
    forall q :: i < q < j ==> keys[i] <= keys[q]
  }

  /** The inner loop of an exchange sort: the least of the keys from i on ends up at i. */
  method PlaceLeast(keys: array<int>, i: nat)
    requires i < keys.Length && SortedTo(keys[..], i)
    modifies keys
    ensures multiset(keys[..]) == multiset(old(keys[..]))
    ensures SortedTo(keys[..], i + 1)
  {
    for j := i + 1 to keys.Length
      invariant multiset(keys[..]) == multiset(old(keys[..]))
      invariant SortedTo(keys[..], i)
      invariant LeastUpTo(keys[..], i, j)
    {
      if keys[j] < keys[i] {
        ghost var before := keys[..];
        keys[i], keys[j] := keys[j], keys[i];
        assert keys[..] == Exchanged(before, i, j);
        ExchangeKeepsSorted(before, i, j);
      }
    }
  }

  method SortKeys(keys: array<int>)
    modifies keys
    ensures multiset(keys[..]) == multiset(old(keys[..]))
    ensures SortedTo(keys[..], keys.Length)
  {
    for i := 0 to keys.Length
      invariant multiset(keys[..]) == multiset(old(keys[..]))
      invariant SortedTo(keys[..], i)
    {
      PlaceLeast(keys, i);
    }
  }

  function Exchanged(s: seq<int>, i: nat, j: nat): seq<int>
    requires i < |s| && j < |s|
  {
    s[i := s[j]][j := s[i]]
  }

  lemma ExchangeKeepsSorted(s: seq<int>, i: nat, j: nat)
    requires i < j < |s| && s[j] < s[i] && SortedTo(s, i) && LeastUpTo(s, i, j)
    ensures SortedTo(Exchanged(s, i, j), i) && LeastUpTo(Exchanged(s, i, j), i, j + 1)
    ensures multiset(Exchanged(s, i, j)) == multiset(s)
  {
  }

  lemma Twice(keys: seq<int>, p: nat, q: nat)
    requires p < q < |keys| && keys[p] == keys[q]
    ensures multiset(keys)[keys[p]] >= 2
  {
    assert keys == keys[..p] + [keys[p]] + keys[p + 1..q] + [keys[q]] + keys[q + 1..];
  }

  lemma SortedSetIncreases(keys: seq<int>, s: set<int>)
    requires multiset(keys) == multiset(s) && SortedTo(keys, |keys|)
    ensures Increasing(keys)
  {
    forall p, q | 0 <= p < q < |keys| ensures keys[p] < keys[q] {
      if keys[p] == keys[q] {
        Twice(keys, p, q);
      }
    }
  }

  /** `out` lists the calls by increasing index. */
  ghost predicate InIndexOrder(calls: map<int, Call>, keys: seq<int>, out: seq<Call>) {
    && Increasing(keys) && |out| == |keys|
    && (forall k :: k in keys <==> k in calls)
    && (forall i :: 0 <= i < |keys| ==> keys[i] in calls && out[i] == calls[keys[i]])
  }

  /** `ranged` is the order in which ranging over the map happens to give up its keys. */
  method OrderedToolCalls(calls: map<int, Call>, ranged: seq<int>) returns (out: seq<Call>)
    requires multiset(ranged) == multiset(calls.Keys)
    ensures exists order :: InIndexOrder(calls, order, out)
  {
    var keys := new int[|ranged|](i requires 0 <= i < |ranged| => ranged[i]);
    assert keys[..] == ranged;
    SortKeys(keys);
    ghost var order := keys[..];
    SortedSetIncreases(order, calls.Keys);
    assert forall k :: k in order <==> k in multiset(order);
    assert forall i :: 0 <= i < |order| ==> order[i] in calls by {
      assert forall i :: 0 <= i < |order| ==> order[i] in order;
    }
    out := [];
    for i := 0 to keys.Length
      invariant |out| == i && order == keys[..]
      invariant forall p :: 0 <= p < i ==> out[p] == calls[order[p]]
    {
      out := out + [calls[keys[i]]];
    }
    assert InIndexOrder(calls, order, out);
  }

  /** The result does not depend on the order in which the map gives up its keys. */
  lemma {:induction false} OrderIsDetermined(calls: map<int, Call>, keys: seq<int>, out: seq<Call>, keys': seq<int>, out': seq<Call>)
    requires InIndexOrder(calls, keys, out) && InIndexOrder(calls, keys', out')
    ensures keys == keys' && out == out'
  {
    SameKeys(keys, keys');
  }

  lemma HeadIn(keys: seq<int>)
    requires keys != []
    ensures keys[0] in keys
  {
  }

  lemma {:induction false} SameKeys(a: seq<int>, b: seq<int>)
    requires Increasing(a) && Increasing(b) && forall k :: k in a <==> k in b
    ensures a == b
  {
    if a == [] {
      if b != [] {
        HeadIn(b);
      }
    } else {
      assert a[0] in b && b[0] in a;
      assert a[0] == b[0];
      forall k ensures k in a[1..] <==> k in b[1..] {
        assert k in a[1..] <==> k in a && k != a[0];
        assert k in b[1..] <==> k in b && k != b[0];
      }
      SameKeys(a[1..], b[1..]);
      assert a == [a[0]] + a[1..] && b == [b[0]] + b[1..];
    }
  }

  /** From the stream to the assistant message: its calls are the tool blocks by increasing index, each
      with its own id, name and arguments. */
  method CollectCalls(events: seq<StreamEvent>, ranged: seq<int>)
    returns (text: string, calls: seq<Call>, ghost order: seq<int>)
    requires WellFormed(events) && multiset(ranged) == multiset(ToolStarts(events))
    ensures text == Texts(events)
    ensures Increasing(order) && |calls| == |order| && (forall k :: k in order <==> k in ToolStarts(events))
    ensures forall i, e :: 0 <= i < |order| && e in events && e.BlockStart? && e.kind == ToolUse && e.index == order[i] ==>
              calls[i] == Call(e.id, e.name, Fragments(events, e.index))
  {
    var stream := StreamLoop(events);
    var assembled: map<int, Call>;
    text, assembled := AssembleCalls(stream);
    CallsAreExact(events);
    calls := OrderedToolCalls(assembled, ranged);
    order :| InIndexOrder(assembled, order, calls);
  }
}
