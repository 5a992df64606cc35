/** The messages a model is sent, and the discipline of tool results in them. */
module Conversation {

  /** `parameters` is the JSON text of the arguments with sorted keys. */
  datatype ToolCall = ToolCall(id: string, name: string, parameters: string)

  datatype Message =
    | System(content: string)
    | User(content: string)
    | Assistant(content: string, toolCalls: seq<ToolCall>)
    | ToolResult(callId: string, name: string, content: string)
  {
    predicate AsksForTools() {
      Assistant? && toolCalls != []
    }

    predicate Answers(call: ToolCall) {
      ToolResult? && callId == call.id && name == call.name
    }
  }

  /** The messages can follow calls of which `open` still await their results, in this order. */
  predicate WellFormedAfter(messages: seq<Message>, open: seq<ToolCall>) {
    if messages == [] then open == []
    else if messages[0].ToolResult? then
      open != [] && messages[0].Answers(open[0]) && WellFormedAfter(messages[1..], open[1..])
    else open == [] && WellFormedAfter(messages[1..], if messages[0].Assistant? then messages[0].toolCalls else [])
  }

  /** Each message that asks for tools is followed by exactly its results, in call order. */
  predicate WellFormed(messages: seq<Message>) {
    WellFormedAfter(messages, [])
  }

  predicate NoToolMessages(messages: seq<Message>) {
    forall i :: 0 <= i < |messages| ==> !messages[i].ToolResult? && !messages[i].AsksForTools()
  }

  lemma {:induction false} WellFormedAppend(first: seq<Message>, second: seq<Message>, open: seq<ToolCall>)
    requires WellFormedAfter(first, open) && WellFormed(second)
    ensures WellFormedAfter(first + second, open)
    decreases |first|
  {
    if first == [] {
      assert first + second == second;
    } else {
      assert (first + second)[1..] == first[1..] + second;
      WellFormedAppend(first[1..], second,
        if first[0].ToolResult? then open[1..] else if first[0].Assistant? then first[0].toolCalls else []);
    }
  }

  lemma {:induction false} NoToolMessagesIsWellFormed(messages: seq<Message>)
    requires NoToolMessages(messages)
    ensures WellFormed(messages)
  {
    if messages != [] {
      assert messages[0].Assistant? ==> messages[0].toolCalls == [];
      assert forall i :: 0 <= i < |messages[1..]| ==> messages[1..][i] == messages[i + 1];
      NoToolMessagesIsWellFormed(messages[1..]);
    }
  }

  /** A result that nothing asked for spoils every context it is appended to. */
  lemma {:induction false} OrphanIsIllFormed(first: seq<Message>, second: seq<Message>, open: seq<ToolCall>)
    requires WellFormedAfter(first, open) && second != [] && second[0].ToolResult?
    ensures !WellFormedAfter(first + second, open)
    decreases |first|
  {
    if first == [] {
      assert first + second == second;
    } else {
      assert (first + second)[1..] == first[1..] + second;
      OrphanIsIllFormed(first[1..], second,
        if first[0].ToolResult? then open[1..] else if first[0].Assistant? then first[0].toolCalls else []);
    }
  }

  /** The results of calls, as the tool loop appends them. */
  function Results(calls: seq<ToolCall>, contents: seq<string>): (r: seq<Message>)
    requires |contents| == |calls|
    ensures |r| == |calls|
    ensures forall i :: 0 <= i < |r| ==> r[i] == ToolResult(calls[i].id, calls[i].name, contents[i])
  {
    seq(|calls|, i requires 0 <= i < |calls| => ToolResult(calls[i].id, calls[i].name, contents[i]))
  }

  lemma {:induction false} ResultsAnswerCalls(calls: seq<ToolCall>, contents: seq<string>)
    requires |contents| == |calls|
    ensures WellFormedAfter(Results(calls, contents), calls)
  {
    if calls != [] {
      assert Results(calls, contents)[1..] == Results(calls[1..], contents[1..]);
      ResultsAnswerCalls(calls[1..], contents[1..]);
    }
  }

  lemma ExchangeIsWellFormed(content: string, calls: seq<ToolCall>, contents: seq<string>)
    requires |contents| == |calls|
    ensures WellFormed([Assistant(content, calls)] + Results(calls, contents))
  {
    var exchange := [Assistant(content, calls)] + Results(calls, contents);
    ResultsAnswerCalls(calls, contents);
    assert exchange[1..] == Results(calls, contents);
  }

  /** Neither a tool result nor a request for tools. */
  predicate IsPlain(m: Message) {
    match m
    case Assistant(_, calls) => calls == []
    case ToolResult(_, _, _) => false
    case _ => true
  }

  // ----- Messages picked out of a conversation -----

  /** The positions of the messages to keep, in order. */
  ghost predicate Selects(positions: seq<nat>, messages: seq<Message>, keep: Message -> bool) {
    && (forall i, j :: 0 <= i < j < |positions| ==> positions[i] < positions[j])
    && (forall p: nat :: p in positions <==> p < |messages| && keep(messages[p]))
  }

  function Shifted(positions: seq<nat>): (r: seq<nat>)
    ensures |r| == |positions| && forall i :: 0 <= i < |r| ==> r[i] == positions[i] + 1
  {
    seq(|positions|, i requires 0 <= i < |positions| => positions[i] + 1)
  }

  /** The positions with one more message in front. */
  function SelectedWith(positions: seq<nat>, keepsFirst: bool): (r: seq<nat>)
    ensures r == if keepsFirst then [0] + Shifted(positions) else Shifted(positions)
  {
    if keepsFirst then [0] + Shifted(positions) else Shifted(positions)
  }

  lemma SelectedAt(positions: seq<nat>, keepsFirst: bool, i: nat)
    requires i < |SelectedWith(positions, keepsFirst)|
    ensures |SelectedWith(positions, keepsFirst)| == |positions| + if keepsFirst then 1 else 0
    ensures SelectedWith(positions, keepsFirst)[i] ==
      if !keepsFirst then positions[i] + 1 else if i == 0 then 0 else positions[i - 1] + 1
  {
  }

  lemma InShifted(positions: seq<nat>, p: nat)
    ensures p in Shifted(positions) <==> p > 0 && p - 1 in positions
  {
    var shifted := Shifted(positions);
    if p > 0 && p - 1 in positions {
      var i :| 0 <= i < |positions| && positions[i] == p - 1;
      assert shifted[i] == p;
    }
  }

  lemma InSelectedWith(positions: seq<nat>, keepsFirst: bool, p: nat)
    ensures p in SelectedWith(positions, keepsFirst) <==> if p == 0 then keepsFirst else p - 1 in positions
  {
    hide Shifted;
    InShifted(positions, p);
    assert p in [0] + Shifted(positions) <==> p == 0 || p in Shifted(positions);
  }

  lemma SelectsCons(positions: seq<nat>, messages: seq<Message>, keep: Message -> bool)
    requires messages != [] && Selects(positions, messages[1..], keep)
    ensures Selects(SelectedWith(positions, keep(messages[0])), messages, keep)
  {
    var all := SelectedWith(positions, keep(messages[0]));
    forall p: nat ensures p in all <==> p < |messages| && keep(messages[p]) {
      InSelectedWith(positions, keep(messages[0]), p);
      assert p > 0 ==> (p - 1 in positions <==> p - 1 < |messages[1..]| && keep(messages[1..][p - 1]));
    }
  }
}
