/** Rewriting a conversation for a model without native tool calls (ai/prompt_tools.py). */
module ToolInjection {
  import opened Prelude
  import opened Text
  import opened Conversation

  // ----- Texts -----

  function Join(separator: string, parts: seq<string>): string {
    if parts == [] then ""
    else if |parts| == 1 then parts[0]
    else parts[0] + separator + Join(separator, parts[1..])
  }

  /** The texts put into a conversation. */
  datatype Texts = Texts(instructions: string, resultsHeader: string, placeholder: string, continuation: string)

  function HandlerTexts(instructions: string): Texts {
    Texts(instructions, "[Tool results]", "I'll use my tools to help with this: ",
          "Now interpret the tool results above and give me a helpful response. "
          + "What did the tool find? Summarize the results for me.")
  }

  /** A tool result as it waits for its assistant message. */
  function ResultText(msg: Message): string
    requires msg.ToolResult?
  {
    msg.name + ": " + msg.content
  }

  function Bullets(results: seq<string>): (r: seq<string>)
    ensures |r| == |results| && forall i :: 0 <= i < |r| ==> r[i] == "- " + results[i]
  {
    seq(|results|, i requires 0 <= i < |results| => "- " + results[i])
  }

  function ResultsBlock(results: seq<string>, texts: Texts): string {
    "\n\n" + texts.resultsHeader + "\n" + Join("\n", Bullets(results))
  }

  function ToolNames(calls: seq<ToolCall>): (r: seq<string>)
    ensures |r| == |calls|
  {
    seq(|calls|, i requires 0 <= i < |calls| => if calls[i].name == "" then "tool" else calls[i].name)
  }

  /** A message that only asks for tools gets a sentence saying so. */
  function BaseContent(content: string, calls: seq<ToolCall>, texts: Texts): string {
    if Strip(content) == "" then texts.placeholder + Join(", ", ToolNames(calls)) else content
  }

  predicate Contains(s: string, part: string) {
    exists i: nat :: i <= |s| && part <= s[i..]
  }

  lemma BlockContainsHeader(base: string, results: seq<string>, texts: Texts)
    ensures Contains(base + ResultsBlock(results, texts), texts.resultsHeader)
  {
    var before, after := base + "\n\n", "\n" + Join("\n", Bullets(results));
    assert base + ResultsBlock(results, texts) == before + (texts.resultsHeader + after);
    assert (before + (texts.resultsHeader + after))[|before|..] == texts.resultsHeader + after;
  }

  // ----- The fold -----

  /** The variables of the loop over the messages. */
  datatype State = State(messages: seq<Message>, systemFound: bool, pending: seq<string>, target: Option<nat>) {

    /** The target is a message already emitted. */
    predicate Valid() {
      target.Some? ==> target.value < |messages|
    }

    /** Pending results go to the target; without a target they stay pending. */
    function Flush(texts: Texts): (s: State)
      requires Valid()
      ensures s.Valid() && |s.messages| == |messages|
    {
      if pending != [] && target.Some? then
        var m := messages[target.value];
        this.(messages := messages[target.value := m.(content := m.content + ResultsBlock(pending, texts))],
              pending := [])
      else this
    }

    function Step(msg: Message, texts: Texts): (s: State)
      requires Valid()
      ensures s.Valid()
    {
      if msg.System? && !systemFound then
        this.(messages := messages + [System(msg.content + "\n\n" + texts.instructions)], systemFound := true)
      else if msg.ToolResult? then
        this.(pending := pending + [ResultText(msg)])
      else if msg.AsksForTools() then
        var flushed := Flush(texts);
        flushed.(messages := flushed.messages + [Assistant(BaseContent(msg.content, msg.toolCalls, texts), [])],
                 target := Some(|flushed.messages|))
      else
        var flushed := Flush(texts);
        flushed.(messages := flushed.messages + [msg], target := None)
    }

    function Steps(msgs: seq<Message>, texts: Texts): (s: State)
      requires Valid()
      ensures s.Valid()
      decreases |msgs|
    {
      if msgs == [] then this else Step(msgs[0], texts).Steps(msgs[1..], texts)
    }
  }

  function Start(): (s: State)
    ensures s.Valid()
  {
    State([], false, [], None)
  }

  lemma {:induction false} StepsAppend(s: State, a: seq<Message>, b: seq<Message>, texts: Texts)
    requires s.Valid()
    ensures s.Steps(a + b, texts) == s.Steps(a, texts).Steps(b, texts)
    decreases |a|
  {
    if a == [] {
      assert a + b == b;
    } else {
      assert (a + b)[1..] == a[1..] + b;
      StepsAppend(s.Step(a[0], texts), a[1..], b, texts);
    }
  }

  /** The flushed conversation ends with an assistant message that shows tool results. */
  predicate NeedsPrompt(s: State, texts: Texts)
    requires s.Valid()
  {
    var msgs := s.Flush(texts).messages;
    msgs != [] && s.target.Some? && msgs[|msgs| - 1].Assistant?
      && Contains(msgs[|msgs| - 1].content, texts.resultsHeader)
  }

  /** The closing part: the last flush, the prompt to go on, and a system message if there was none. */
  function Finish(s: State, texts: Texts): seq<Message>
    requires s.Valid()
  {
    var msgs := s.Flush(texts).messages;
    var withPrompt := if NeedsPrompt(s, texts) then msgs + [User(texts.continuation)] else msgs;
    if s.systemFound then withPrompt else [System(texts.instructions)] + withPrompt
  }

  function Inject(messages: seq<Message>, texts: Texts): seq<Message> {
    Finish(Start().Steps(messages, texts), texts)
  }

  /** `instructions` describe the tools; they are absent where there are none. */
  method InjectToolsIntoMessages(messages: seq<Message>, instructions: Option<string>)
      returns (newMessages: seq<Message>)
    ensures newMessages == if instructions.None? then messages else Inject(messages, HandlerTexts(instructions.value))
    ensures instructions.Some? && WellFormed(messages) ==> IsRewritten(messages, instructions.value, newMessages)
  {
    hide Inject, HandlerTexts, WellFormed, IsRewritten;
    if instructions.None? {
      return messages;
    }
    newMessages := RewriteMessages(messages, HandlerTexts(instructions.value));
    if WellFormed(messages) {
      WellFormedIsRewritten(messages, instructions.value);
    }
  }

  method RewriteMessages(messages: seq<Message>, texts: Texts) returns (newMessages: seq<Message>)
    ensures newMessages == Inject(messages, texts)
  {
    hide BaseContent, ResultsBlock, State.Step, State.Flush, Finish;
    newMessages := [];
    var systemFound := false;
    var pendingToolResults: seq<string> := [];
    var lastAssistantIndex: Option<nat> := None;
    ghost var state := Start();
    assert messages[0..] == messages;
    for i := 0 to |messages|
      invariant state.Valid() && state == State(newMessages, systemFound, pendingToolResults, lastAssistantIndex)
      invariant Start().Steps(messages, texts) == state.Steps(messages[i..], texts)
    {
      var msg := messages[i];
      assert messages[i..][1..] == messages[i + 1..];
      state := state.Step(msg, texts);
      newMessages, systemFound, pendingToolResults, lastAssistantIndex :=
        ConvertMessage(newMessages, systemFound, pendingToolResults, lastAssistantIndex, msg, texts);
    }
    newMessages := Close(newMessages, systemFound, pendingToolResults, lastAssistantIndex, texts);
  }

  method Close(messages: seq<Message>, systemFound: bool, pending: seq<string>, target: Option<nat>, texts: Texts)
      returns (newMessages: seq<Message>)
    requires State(messages, systemFound, pending, target).Valid()
    ensures newMessages == Finish(State(messages, systemFound, pending, target), texts)
  {
    hide Contains, ResultsBlock;
    var pendingToolResults;
    newMessages, pendingToolResults := FlushToolResults(messages, systemFound, pending, target, texts);
    if newMessages != [] && target.Some? {
      var lastMsg := newMessages[|newMessages| - 1];
      if lastMsg.Assistant? && Contains(lastMsg.content, texts.resultsHeader) {
        newMessages := newMessages + [User(texts.continuation)];
      }
    }
    if !systemFound {
      newMessages := [System(texts.instructions)] + newMessages;
    }
  }

  /** The body of the loop over the messages. */
  method ConvertMessage(messages: seq<Message>, found: bool, pending: seq<string>, target: Option<nat>, msg: Message,
                        texts: Texts)
      returns (newMessages: seq<Message>, systemFound: bool, pendingToolResults: seq<string>,
               lastAssistantIndex: Option<nat>)
    requires State(messages, found, pending, target).Valid()
    ensures State(newMessages, systemFound, pendingToolResults, lastAssistantIndex)
         == State(messages, found, pending, target).Step(msg, texts)
  {
    hide BaseContent, ResultsBlock;
    newMessages, systemFound, pendingToolResults, lastAssistantIndex := messages, found, pending, target;
    if msg.System? && !systemFound {
      newMessages := newMessages + [System(msg.content + "\n\n" + texts.instructions)];
      systemFound := true;
    } else if msg.ToolResult? {
      pendingToolResults := pendingToolResults + [ResultText(msg)];
    } else if msg.AsksForTools() {
      newMessages, pendingToolResults :=
        FlushToolResults(newMessages, found, pendingToolResults, lastAssistantIndex, texts);
      newMessages := newMessages + [Assistant(BaseContent(msg.content, msg.toolCalls, texts), [])];
      lastAssistantIndex := Some(|newMessages| - 1);
    } else {
      newMessages, pendingToolResults :=
        FlushToolResults(newMessages, found, pendingToolResults, lastAssistantIndex, texts);
      lastAssistantIndex := None;
      newMessages := newMessages + [msg];
    }
  }

  method FlushToolResults(messages: seq<Message>, found: bool, pending: seq<string>, target: Option<nat>, texts: Texts)
      returns (flushed: seq<Message>, rest: seq<string>)
    requires State(messages, found, pending, target).Valid()
    ensures State(flushed, found, rest, target) == State(messages, found, pending, target).Flush(texts)
  {
    hide ResultsBlock;
    flushed, rest := messages, pending;
    if pending != [] && target.Some? {
      var m := messages[target.value];
      flushed := flushed[target.value := m.(content := m.content + ResultsBlock(pending, texts))];
      rest := [];
    }
  }

  // ----- What the rewritten conversation is -----

  function ResultTexts(results: seq<Message>): (r: seq<string>)
    requires forall i :: 0 <= i < |results| ==> results[i].ToolResult?
    ensures |r| == |results|
  {
    seq(|results|, i requires 0 <= i < |results| => ResultText(results[i]))
  }

  /** How many results stand at the front. */
  function LeadingResults(messages: seq<Message>): (n: nat)
    ensures n <= |messages| && forall i :: 0 <= i < n ==> messages[i].ToolResult?
    ensures n < |messages| ==> !messages[n].ToolResult?
  {
    if messages == [] || !messages[0].ToolResult? then 0 else 1 + LeadingResults(messages[1..])
  }

  /** One assistant message per exchange, holding the results of its calls in order; every other
      message as it was; the first system message extended unless one was found before. */
  function Rendered(messages: seq<Message>, systemFound: bool, texts: Texts): seq<Message>
    decreases |messages|
  {
    if messages == [] then []
    else if messages[0].AsksForTools() then
      var n := LeadingResults(messages[1..]);
      [Assistant(BaseContent(messages[0].content, messages[0].toolCalls, texts)
                 + ResultsBlock(ResultTexts(messages[1..][..n]), texts), [])]
      + Rendered(messages[1..][n..], systemFound, texts)
    else if messages[0].System? && !systemFound then
      [System(messages[0].content + "\n\n" + texts.instructions)] + Rendered(messages[1..], true, texts)
    else [messages[0]] + Rendered(messages[1..], systemFound, texts)
  }

  predicate HasSystem(messages: seq<Message>) {
    exists i :: 0 <= i < |messages| && messages[i].System?
  }

  predicate EndsWithResult(messages: seq<Message>) {
    messages != [] && messages[|messages| - 1].ToolResult?
  }

  /** Results wait only for a message that is there. */
  predicate NoOrphans(s: State) {
    s.Valid() && (s.pending != [] ==> s.target.Some?)
  }

  lemma {:induction false} CollectResults(s: State, results: seq<Message>, texts: Texts)
    requires s.Valid() && forall i :: 0 <= i < |results| ==> results[i].ToolResult?
    ensures s.Steps(results, texts) == s.(pending := s.pending + ResultTexts(results))
    decreases |results|
  {
    if results == [] {
      assert s.pending + ResultTexts(results) == s.pending;
    } else {
      CollectResults(s.Step(results[0], texts), results[1..], texts);
      assert s.pending + [ResultText(results[0])] + ResultTexts(results[1..]) == s.pending + ResultTexts(results);
    }
  }

  lemma StepOther(s: State, msg: Message, texts: Texts)
    requires NoOrphans(s) && !msg.ToolResult? && !msg.AsksForTools()
    ensures
      var next := s.Step(msg, texts);
      && NoOrphans(next) && !NeedsPrompt(next, texts) && next.systemFound == (s.systemFound || msg.System?)
      && next.Flush(texts).messages == s.Flush(texts).messages
           + [if msg.System? && !s.systemFound then System(msg.content + "\n\n" + texts.instructions) else msg]
  {
    hide BaseContent, ResultsBlock, Contains;
  }

  lemma StepExchange(s: State, asking: Message, results: seq<Message>, texts: Texts)
    requires NoOrphans(s) && asking.AsksForTools() && results != []
    requires forall i :: 0 <= i < |results| ==> results[i].ToolResult?
    ensures
      var next := s.Steps([asking] + results, texts);
      && NoOrphans(next) && NeedsPrompt(next, texts) && next.systemFound == s.systemFound
      && next.Flush(texts).messages == s.Flush(texts).messages
           + [Assistant(BaseContent(asking.content, asking.toolCalls, texts)
                        + ResultsBlock(ResultTexts(results), texts), [])]
    ensures ShowsExchange(BaseContent(asking.content, asking.toolCalls, texts)
                          + ResultsBlock(ResultTexts(results), texts), asking, results, texts)
  {
    hide ResultsBlock, BaseContent, Contains, ShowsExchange;
    ExchangeIsShown(asking, results, texts);
    var asked := s.Step(asking, texts);
    assert ([asking] + results)[1..] == results;
    CollectResults(asked, results, texts);
    assert asked.pending + ResultTexts(results) == ResultTexts(results);
    BlockContainsHeader(BaseContent(asking.content, asking.toolCalls, texts), ResultTexts(results), texts);
  }

  /** The first exchange of a well-formed conversation is closed before the rest of it. */
  lemma {:induction false} ResultsOfFirst(messages: seq<Message>, open: seq<ToolCall>)
    requires WellFormedAfter(messages, open)
    ensures LeadingResults(messages) == |open| && WellFormed(messages[|open|..])
    ensures forall i :: 0 <= i < |open| ==> messages[i].Answers(open[i])
  {
    if messages != [] && messages[0].ToolResult? {
      ResultsOfFirst(messages[1..], open[1..]);
      assert messages[|open|..] == messages[1..][|open[1..]|..];
      forall i | 0 <= i < |open| ensures messages[i].Answers(open[i]) {
        assert i > 0 ==> messages[i] == messages[1..][i - 1] && open[i] == open[1..][i - 1];
      }
    } else {
      assert messages[|open|..] == messages;
    }
  }

  lemma ExchangeThenRest(s: State, messages: seq<Message>, n: nat, texts: Texts)
    requires s.Valid() && messages != [] && messages[0].AsksForTools() && 0 < n < |messages|
    requires forall i :: 0 <= i < n ==> messages[1..][i].ToolResult?
    ensures
      var results, rest := messages[1..][..n], messages[1..][n..];
      && s.Steps(messages, texts) == s.Steps([messages[0]] + results, texts).Steps(rest, texts)
      && (HasSystem(messages) <==> HasSystem(rest))
      && (EndsWithResult(messages) <==> rest == [] || EndsWithResult(rest))
  {
    hide State.Steps, State.Step, State.Flush;
    var results, rest := messages[1..][..n], messages[1..][n..];
    assert messages == [messages[0]] + results + rest;
    StepsAppend(s, [messages[0]] + results, rest, texts);
    assert forall i :: 0 <= i < |rest| ==> rest[i] == messages[n + 1 + i];
    assert forall i :: 0 <= i < n ==> messages[i + 1] == messages[1..][i];
    if HasSystem(messages) {
      var i :| 0 <= i < |messages| && messages[i].System?;
      assert rest[i - n - 1].System?;
    }
    if rest == [] {
      assert messages[|messages| - 1] == messages[1..][n - 1];
    }
  }

  /** Where the loop arrives from state s with these messages still to come. */
  ghost predicate RendersTo(s: State, messages: seq<Message>, end: State, texts: Texts) {
    && NoOrphans(s) && NoOrphans(end) && end.systemFound == (s.systemFound || HasSystem(messages))
    && end.Flush(texts).messages == s.Flush(texts).messages + Rendered(messages, s.systemFound, texts)
    && (messages != [] ==> (NeedsPrompt(end, texts) <==> EndsWithResult(messages)))
    && (messages == [] ==> end == s)
  }

  lemma RenderOtherFirst(s: State, messages: seq<Message>, end: State, texts: Texts)
    requires messages != [] && !messages[0].ToolResult? && !messages[0].AsksForTools()
    requires NoOrphans(s) && RendersTo(s.Step(messages[0], texts), messages[1..], end, texts)
    ensures RendersTo(s, messages, end, texts)
  {
    hide State.Step, State.Flush, NeedsPrompt, Rendered, HasSystem;
    StepOther(s, messages[0], texts);
    SystemFirstOrLater(messages);
    var next := s.Step(messages[0], texts);
    var msg :=
      if messages[0].System? && !s.systemFound then System(messages[0].content + "\n\n" + texts.instructions)
      else messages[0];
    RenderedOther(messages, s.systemFound, texts);
    Regroup(s.Flush(texts).messages, [msg], Rendered(messages[1..], next.systemFound, texts));
  }

  lemma SystemFirstOrLater(messages: seq<Message>)
    requires messages != []
    ensures HasSystem(messages) <==> messages[0].System? || HasSystem(messages[1..])
  {
    assert forall i :: 0 < i < |messages| ==> messages[i] == messages[1..][i - 1];
  }

  lemma RenderedOther(messages: seq<Message>, systemFound: bool, texts: Texts)
    requires messages != [] && !messages[0].AsksForTools()
    ensures Rendered(messages, systemFound, texts)
         == [if messages[0].System? && !systemFound then System(messages[0].content + "\n\n" + texts.instructions)
             else messages[0]]
            + Rendered(messages[1..], systemFound || messages[0].System?, texts)
  {
  }

  lemma Regroup<T>(a: seq<T>, b: seq<T>, c: seq<T>)
    ensures a + b + c == a + (b + c)
  {
  }

  lemma RenderExchangeFirst(s: State, messages: seq<Message>, n: nat, end: State, texts: Texts)
    requires messages != [] && messages[0].AsksForTools() && 0 < n == LeadingResults(messages[1..])
    requires NoOrphans(s)
    requires RendersTo(s.Steps([messages[0]] + messages[1..][..n], texts), messages[1..][n..], end, texts)
    ensures RendersTo(s, messages, end, texts)
  {
    hide State.Steps, State.Step, State.Flush, NeedsPrompt, HasSystem, EndsWithResult, ResultsBlock, BaseContent;
    StepExchange(s, messages[0], messages[1..][..n], texts);
    ExchangeThenRest(s, messages, n, texts);
    var msg := Assistant(BaseContent(messages[0].content, messages[0].toolCalls, texts)
                         + ResultsBlock(ResultTexts(messages[1..][..n]), texts), []);
    Regroup(s.Flush(texts).messages, [msg], Rendered(messages[1..][n..], s.systemFound, texts));
  }

  lemma {:induction false} StepsRender(s: State, messages: seq<Message>, texts: Texts)
    requires NoOrphans(s) && WellFormed(messages)
    ensures RendersTo(s, messages, s.Steps(messages, texts), texts)
    decreases |messages|
  {
    hide RendersTo, Rendered, NeedsPrompt;
    if messages == [] {
      RenderNothing(s, texts);
    } else if messages[0].AsksForTools() {
      ResultsOfFirst(messages[1..], messages[0].toolCalls);
      var n := LeadingResults(messages[1..]);
      var exchange := [messages[0]] + messages[1..][..n];
      StepExchange(s, messages[0], messages[1..][..n], texts);
      StepsRender(s.Steps(exchange, texts), messages[1..][n..], texts);
      ExchangeThenRest(s, messages, n, texts);
      RenderExchangeFirst(s, messages, n, s.Steps(messages, texts), texts);
    } else {
      StepOther(s, messages[0], texts);
      StepsRender(s.Step(messages[0], texts), messages[1..], texts);
      RenderOtherFirst(s, messages, s.Steps(messages, texts), texts);
    }
  }

  lemma RenderNothing(s: State, texts: Texts)
    requires NoOrphans(s)
    ensures RendersTo(s, [], s, texts)
  {
    assert s.Flush(texts).messages + [] == s.Flush(texts).messages;
  }

  lemma NothingNeedsNoPrompt(texts: Texts)
    ensures NoOrphans(Start()) && !NeedsPrompt(Start(), texts) && Start().Flush(texts).messages == []
  {
  }

  /** The whole rewritten conversation, for every well-formed one. */
  lemma InjectRendersWellFormed(messages: seq<Message>, texts: Texts)
    requires WellFormed(messages)
    ensures Inject(messages, texts)
         == (if HasSystem(messages) then [] else [System(texts.instructions)])
            + Rendered(messages, false, texts)
            + (if EndsWithResult(messages) then [User(texts.continuation)] else [])
  {
    hide Rendered, HasSystem, State.Steps, NeedsPrompt, ResultsBlock;
    NothingNeedsNoPrompt(texts);
    StepsRender(Start(), messages, texts);
    assert Start().Flush(texts).messages + Rendered(messages, false, texts) == Rendered(messages, false, texts);
  }

  /** The instructions behind the first system message. */
  function InstructFirstSystem(messages: seq<Message>, texts: Texts): seq<Message> {
    if messages == [] then []
    else if messages[0].System? then [System(messages[0].content + "\n\n" + texts.instructions)] + messages[1..]
    else [messages[0]] + InstructFirstSystem(messages[1..], texts)
  }

  /** The instructions are added once, to the first system message, and nowhere else. */
  lemma {:induction false} InstructionsAreAddedOnce(messages: seq<Message>, texts: Texts)
    requires WellFormed(messages)
    ensures Rendered(messages, false, texts) == InstructFirstSystem(Rendered(messages, true, texts), texts)
    decreases |messages|
  {
    hide BaseContent, ResultsBlock;
    if messages != [] {
      var rest := if messages[0].AsksForTools() then messages[1..][LeadingResults(messages[1..])..] else messages[1..];
      if messages[0].AsksForTools() {
        ResultsOfFirst(messages[1..], messages[0].toolCalls);
      }
      if !messages[0].System? {
        InstructionsAreAddedOnce(rest, texts);
      }
      assert Rendered(messages, true, texts)[1..] == Rendered(rest, true, texts);
    }
  }

  /** No message of the tool role and none that asks for tools is ever emitted. */
  lemma {:induction false} NoToolMessagesEmitted(s: State, messages: seq<Message>, texts: Texts)
    requires s.Valid() && NoToolMessages(s.messages)
    ensures NoToolMessages(Finish(s.Steps(messages, texts), texts))
    decreases |messages|
  {
    hide BaseContent, ResultsBlock, Contains;
    if messages != [] {
      NoToolMessagesEmitted(s.Step(messages[0], texts), messages[1..], texts);
    }
  }

  // ----- The rewritten conversation, text by text -----

  /** The sentence for a message that only asks for tools: every tool is named, "tool" where it has no name. */
  predicate ArePlaceholderParts(parts: seq<string>, calls: seq<ToolCall>, texts: Texts) {
    && |parts| == |calls| + 1 && parts[0] == texts.placeholder
    && forall k :: 0 <= k < |calls| ==>
         parts[k + 1] == (if k == 0 then "" else ", ") + if calls[k].name == "" then "tool" else calls[k].name
  }

  /** A content with a visible character is kept as it is. */
  ghost predicate IsBaseText(base: string, asking: Message, texts: Texts)
    requires asking.Assistant?
  {
    if exists i :: 0 <= i < |asking.content| && !IsSpace(asking.content[i]) then base == asking.content
    else exists parts :: ArePlaceholderParts(parts, asking.toolCalls, texts) && IsMadeOf(base, parts)
  }

  /** The base text, the header, and a line for every result in order. */
  predicate AreResultParts(parts: seq<string>, base: string, results: seq<Message>, texts: Texts) {
    && |parts| == |results| + 2 && parts[0] == base && parts[1] == "\n\n" + texts.resultsHeader
    && forall k :: 0 <= k < |results| ==>
         results[k].ToolResult? && parts[k + 2] == "\n- " + results[k].name + ": " + results[k].content
  }

  ghost predicate ShowsExchange(content: string, asking: Message, results: seq<Message>, texts: Texts)
    requires asking.Assistant?
  {
    exists base, parts ::
      IsBaseText(base, asking, texts) && AreResultParts(parts, base, results, texts) && IsMadeOf(content, parts)
  }

  predicate AreResults(messages: seq<Message>) {
    forall i :: 0 <= i < |messages| ==> messages[i].ToolResult?
  }

  predicate IsNoResult(m: Message) {
    !m.ToolResult?
  }

  /** What the message at position p is shown as. */
  ghost predicate IsShown(messages: seq<Message>, p: nat, shown: Message, systemFound: bool, texts: Texts)
    requires p < |messages|
  {
    var m := messages[p];
    if m.AsksForTools() then
      && shown.Assistant? && shown.toolCalls == [] && p + |m.toolCalls| < |messages|
      && ShowsExchange(shown.content, m, messages[p + 1..p + 1 + |m.toolCalls|], texts)
    else if m.System? && !systemFound && !HasSystem(messages[..p]) then
      shown == System(m.content + "\n\n" + texts.instructions)
    else shown == m
  }

  /** Every message that is not a result is shown once, in order. */
  ghost predicate IsOutline(messages: seq<Message>, positions: seq<nat>, shown: seq<Message>, systemFound: bool,
                            texts: Texts)
  {
    && Selects(positions, messages, IsNoResult) && |shown| == |positions|
    && forall i :: 0 <= i < |positions| ==> IsShownAt(messages, positions[i], shown[i], systemFound, texts)
  }

  ghost predicate IsShownAt(messages: seq<Message>, p: nat, shown: Message, systemFound: bool, texts: Texts) {
    p < |messages| && IsShown(messages, p, shown, systemFound, texts)
  }

  /** The whole rewritten conversation of a well-formed one, in the words of the prompt. */
  ghost predicate IsRewritten(messages: seq<Message>, instructions: string, newMessages: seq<Message>) {
    var ending := "Now interpret the tool results above and give me a helpful response. "
                  + "What did the tool find? Summarize the results for me.";
    exists positions: seq<nat>, shown: seq<Message> ::
      && IsOutline(messages, positions, shown, false,
                   Texts(instructions, "[Tool results]", "I'll use my tools to help with this: ", ending))
      && newMessages ==
           (if exists i :: 0 <= i < |messages| && messages[i].System? then [] else [System(instructions)])
           + shown
           + (if messages != [] && messages[|messages| - 1].ToolResult? then
                [User(ending)]
              else [])
  }

  lemma {:induction false} JoinOneMore(separator: string, parts: seq<string>, last: string)
    requires parts != []
    ensures Join(separator, parts + [last]) == Join(separator, parts) + separator + last
  {
    if |parts| > 1 {
      JoinOneMore(separator, parts[1..], last);
      assert (parts + [last])[1..] == parts[1..] + [last];
      var first, rest := parts[0] + separator, Join(separator, parts[1..]);
      assert first + (rest + separator + last) == first + rest + separator + last;
    } else {
      assert (parts + [last])[1..] == [last];
    }
  }

  lemma {:induction false} PlaceholderParts(calls: seq<ToolCall>, texts: Texts) returns (parts: seq<string>)
    ensures ArePlaceholderParts(parts, calls, texts)
    ensures IsMadeOf(texts.placeholder + Join(", ", ToolNames(calls)), parts)
  {
    hide IsMadeOf;
    if calls == [] {
      parts := [] + [texts.placeholder];
      MadeOfNothing<char>();
      MadeOfOneMore([], [], texts.placeholder);
      assert "" + texts.placeholder == texts.placeholder + Join(", ", ToolNames(calls));
    } else {
      var n := |calls| - 1;
      var before := PlaceholderParts(calls[..n], texts);
      var name := if calls[n].name == "" then "tool" else calls[n].name;
      var part := (if n == 0 then "" else ", ") + name;
      MadeOfOneMore(texts.placeholder + Join(", ", ToolNames(calls[..n])), before, part);
      parts := before + [part];
      assert ToolNames(calls) == ToolNames(calls[..n]) + [name];
      NamesOneMore(texts.placeholder, ToolNames(calls[..n]), name);
    }
  }

  lemma NamesOneMore(front: string, names: seq<string>, name: string)
    ensures front + Join(", ", names + [name])
         == front + Join(", ", names) + ((if |names| == 0 then "" else ", ") + name)
  {
    hide Join;
    if names == [] {
      JoinFew(", ", name);
      assert names + [name] == [name];
      assert front + "" + ("" + name) == front + name;
    } else {
      JoinOneMore(", ", names, name);
      Regroup(front, Join(", ", names), ", " + name);
      Regroup(Join(", ", names), ", ", name);
    }
  }

  lemma JoinFew(separator: string, part: string)
    ensures Join(separator, []) == "" && Join(separator, [part]) == part
  {
  }

  lemma BaseText(asking: Message, texts: Texts)
    requires asking.Assistant?
    ensures IsBaseText(BaseContent(asking.content, asking.toolCalls, texts), asking, texts)
  {
    StripIsEmpty(asking.content);
    var parts := PlaceholderParts(asking.toolCalls, texts);
  }

  lemma BlockOfOne(base: string, result: string, texts: Texts)
    ensures base + ResultsBlock([result], texts) == base + ("\n\n" + texts.resultsHeader) + ("\n- " + result)
  {
    assert Bullets([result]) == ["- " + result];
  }

  lemma BlockOneMore(base: string, results: seq<string>, last: string, texts: Texts)
    requires results != []
    ensures base + ResultsBlock(results + [last], texts) == base + ResultsBlock(results, texts) + ("\n- " + last)
  {
    assert Bullets(results + [last]) == Bullets(results) + ["- " + last];
    JoinOneMore("\n", Bullets(results), "- " + last);
  }

  lemma {:induction false} ResultParts(base: string, results: seq<Message>, texts: Texts)
      returns (parts: seq<string>)
    requires results != [] && AreResults(results)
    ensures AreResultParts(parts, base, results, texts)
    ensures IsMadeOf(base + ResultsBlock(ResultTexts(results), texts), parts)
  {
    hide ResultsBlock;
    var n := |results| - 1;
    var line := "\n- " + results[n].name + ": " + results[n].content;
    assert line == "\n- " + ResultText(results[n]);
    if n == 0 {
      var head := "\n\n" + texts.resultsHeader;
      MadeOfNothing<char>();
      MadeOfOneMore([], [], base);
      assert [] + base == base && [] + [base] == [base];
      MadeOfOneMore(base, [base], head);
      MadeOfOneMore(base + head, [base] + [head], line);
      parts := [base] + [head] + [line];
      assert ResultTexts(results) == [ResultText(results[0])];
      BlockOfOne(base, ResultText(results[0]), texts);
    } else {
      var before := ResultParts(base, results[..n], texts);
      parts := before + [line];
      MadeOfOneMore(base + ResultsBlock(ResultTexts(results[..n]), texts), before, line);
      assert ResultTexts(results) == ResultTexts(results[..n]) + [ResultText(results[n])];
      BlockOneMore(base, ResultTexts(results[..n]), ResultText(results[n]), texts);
    }
  }

  /** What an exchange is shown as. */
  lemma ExchangeIsShown(asking: Message, results: seq<Message>, texts: Texts)
    requires asking.Assistant? && results != [] && AreResults(results)
    ensures ShowsExchange(BaseContent(asking.content, asking.toolCalls, texts)
                          + ResultsBlock(ResultTexts(results), texts), asking, results, texts)
  {
    hide IsMadeOf, BaseContent, ResultsBlock, AreResultParts, IsBaseText;
    BaseText(asking, texts);
    var parts := ResultParts(BaseContent(asking.content, asking.toolCalls, texts), results, texts);
  }

  function MovedBy(positions: seq<nat>, d: nat): (r: seq<nat>)
    ensures |r| == |positions| && forall i :: 0 <= i < |r| ==> r[i] == positions[i] + d
  {
    seq(|positions|, i requires 0 <= i < |positions| => positions[i] + d)
  }

  lemma InMoved(positions: seq<nat>, d: nat, p: nat)
    ensures p in MovedBy(positions, d) <==> p >= d && p - d in positions
  {
    var moved := MovedBy(positions, d);
    if p >= d && p - d in positions {
      var i :| 0 <= i < |positions| && positions[i] == p - d;
      assert moved[i] == p;
    }
  }

  lemma SelectsBehind(messages: seq<Message>, d: nat, positions: seq<nat>)
    requires 0 < d <= |messages| && Selects(positions, messages[d..], IsNoResult)
    requires !messages[0].ToolResult? && forall k :: 0 < k < d ==> messages[k].ToolResult?
    ensures Selects([0] + MovedBy(positions, d), messages, IsNoResult)
  {
    var all := [0] + MovedBy(positions, d);
    forall p: nat ensures p in all <==> p < |messages| && IsNoResult(messages[p]) {
      InMoved(positions, d, p);
      assert p in all <==> p == 0 || p in MovedBy(positions, d);
      assert d <= p < |messages| ==> messages[d..][p - d] == messages[p];
    }
  }

  lemma ShownBehind(messages: seq<Message>, d: nat, p: nat, shown: Message, systemFound: bool, texts: Texts)
    requires 0 < d <= |messages| && forall k :: 0 < k < d ==> messages[k].ToolResult?
    requires IsShownAt(messages[d..], p, shown, systemFound || messages[0].System?, texts)
    ensures IsShownAt(messages, p + d, shown, systemFound, texts)
  {
    hide ShowsExchange;
    var rest := messages[d..];
    assert rest[p] == messages[p + d];
    if messages[p + d].AsksForTools() {
      var n := |messages[p + d].toolCalls|;
      assert rest[p + 1..p + 1 + n] == messages[p + d + 1..p + d + 1 + n];
    } else {
      assert messages[..p + d] == messages[..d] + rest[..p];
      SystemInEither(messages[..d], rest[..p]);
      assert HasSystem(messages[..d]) <==> messages[0].System? by {
        assert messages[..d][0] == messages[0];
      }
    }
  }

  lemma SystemInEither(a: seq<Message>, b: seq<Message>)
    ensures HasSystem(a + b) <==> HasSystem(a) || HasSystem(b)
  {
    assert forall i :: 0 <= i < |a| ==> (a + b)[i] == a[i];
    assert forall i :: 0 <= i < |b| ==> (a + b)[|a| + i] == b[i];
    if HasSystem(a + b) {
      var i :| 0 <= i < |a + b| && (a + b)[i].System?;
      assert if i < |a| then a[i].System? else b[i - |a|].System?;
    }
  }

  lemma OutlineBehind(messages: seq<Message>, d: nat, positions: seq<nat>, first: Message, shown: seq<Message>,
                      systemFound: bool, texts: Texts)
    requires 0 < d <= |messages| && !messages[0].ToolResult? && forall k :: 0 < k < d ==> messages[k].ToolResult?
    requires IsShownAt(messages, 0, first, systemFound, texts)
    requires IsOutline(messages[d..], positions, shown, systemFound || messages[0].System?, texts)
    ensures IsOutline(messages, [0] + MovedBy(positions, d), [first] + shown, systemFound, texts)
  {
    hide IsShown, IsShownAt, Selects, IsNoResult;
    SelectsBehind(messages, d, positions);
    AllShownBehind(messages, d, positions, shown, systemFound, texts);
    FirstAndMoved(messages, d, positions, first, shown, systemFound, texts);
  }

  lemma AllShownBehind(messages: seq<Message>, d: nat, positions: seq<nat>, shown: seq<Message>, systemFound: bool,
                       texts: Texts)
    requires 0 < d <= |messages| && forall k :: 0 < k < d ==> messages[k].ToolResult?
    requires IsOutline(messages[d..], positions, shown, systemFound || messages[0].System?, texts)
    ensures |shown| == |positions|
    ensures forall i :: 0 <= i < |positions| ==> IsShownAt(messages, positions[i] + d, shown[i], systemFound, texts)
  {
    hide IsShown, IsShownAt, Selects, IsNoResult;
    forall i | 0 <= i < |positions| ensures IsShownAt(messages, positions[i] + d, shown[i], systemFound, texts) {
      assert IsShownAt(messages[d..], positions[i], shown[i], systemFound || messages[0].System?, texts);
      ShownBehind(messages, d, positions[i], shown[i], systemFound, texts);
    }
  }

  lemma FirstAndMoved(messages: seq<Message>, d: nat, positions: seq<nat>, first: Message, shown: seq<Message>,
                      systemFound: bool, texts: Texts)
    requires |shown| == |positions| && IsShownAt(messages, 0, first, systemFound, texts)
    requires forall i :: 0 <= i < |positions| ==> IsShownAt(messages, positions[i] + d, shown[i], systemFound, texts)
    ensures
      var all := [0] + MovedBy(positions, d);
      forall i :: 0 <= i < |all| ==> IsShownAt(messages, all[i], ([first] + shown)[i], systemFound, texts)
  {
    hide IsShownAt;
  }

  /** Every well-formed conversation is rendered message by message, each exchange as one message. */
  lemma {:induction false} RenderedOutline(messages: seq<Message>, systemFound: bool, texts: Texts)
      returns (positions: seq<nat>)
    requires WellFormed(messages)
    ensures IsOutline(messages, positions, Rendered(messages, systemFound, texts), systemFound, texts)
    decreases |messages|
  {
    hide IsOutline, IsShownAt, ShowsExchange, ResultsBlock, BaseContent;
    if messages == [] {
      positions := [];
      NothingIsShown(systemFound, texts);
    } else if messages[0].AsksForTools() {
      ResultsOfFirst(messages[1..], messages[0].toolCalls);
      var n := |messages[0].toolCalls|;
      assert messages[1..][n..] == messages[n + 1..];
      var later := RenderedOutline(messages[n + 1..], systemFound, texts);
      positions := [0] + MovedBy(later, n + 1);
      AskingIsShown(messages, systemFound, texts);
      assert forall k :: 0 < k < n + 1 ==> messages[k] == messages[1..][k - 1];
      OutlineBehind(messages, n + 1, later, Rendered(messages, systemFound, texts)[0],
                    Rendered(messages[n + 1..], systemFound, texts), systemFound, texts);
    } else {
      var later := RenderedOutline(messages[1..], systemFound || messages[0].System?, texts);
      positions := [0] + MovedBy(later, 1);
      RenderedOther(messages, systemFound, texts);
      OtherIsShown(messages, systemFound, texts);
      OutlineBehind(messages, 1, later, Rendered(messages, systemFound, texts)[0],
                    Rendered(messages[1..], systemFound || messages[0].System?, texts), systemFound, texts);
    }
  }

  lemma NothingIsShown(systemFound: bool, texts: Texts)
    ensures IsOutline([], [], Rendered([], systemFound, texts), systemFound, texts)
  {
  }

  lemma OtherIsShown(messages: seq<Message>, systemFound: bool, texts: Texts)
    requires messages != [] && !messages[0].AsksForTools()
    ensures Rendered(messages, systemFound, texts) != []
    ensures IsShownAt(messages, 0, Rendered(messages, systemFound, texts)[0], systemFound, texts)
  {
    assert messages[..0] == [];
  }

  lemma AskingIsShown(messages: seq<Message>, systemFound: bool, texts: Texts)
    requires messages != [] && messages[0].AsksForTools() && WellFormedAfter(messages[1..], messages[0].toolCalls)
    ensures Rendered(messages, systemFound, texts) != []
    ensures IsShownAt(messages, 0, Rendered(messages, systemFound, texts)[0], systemFound, texts)
  {
    hide ShowsExchange, ResultsBlock, BaseContent;
    ResultsOfFirst(messages[1..], messages[0].toolCalls);
    var n := |messages[0].toolCalls|;
    assert messages[1..n + 1] == messages[1..][..n];
    ExchangeIsShown(messages[0], messages[1..][..n], texts);
  }

  lemma WellFormedIsRewritten(messages: seq<Message>, instructions: string)
    requires WellFormed(messages)
    ensures IsRewritten(messages, instructions, Inject(messages, HandlerTexts(instructions)))
  {
    var texts := HandlerTexts(instructions);
    hide Inject, Rendered, WellFormed, ShowsExchange;
    InjectRendersWellFormed(messages, texts);
    var positions := RenderedOutline(messages, false, texts);
  }

  // ----- Results that nothing asked for -----

  lemma {:induction false} PlainMessages(s: State, messages: seq<Message>, texts: Texts)
    requires s.pending == [] && s.target.None? && NoToolMessages(messages)
    ensures s.Steps(messages, texts) ==
      State(s.messages + Rendered(messages, s.systemFound, texts), s.systemFound || HasSystem(messages), [], None)
    decreases |messages|
  {
    if messages == [] {
      assert s.messages + [] == s.messages;
    } else {
      SystemFirstOrLater(messages);
      assert !messages[0].ToolResult? && !messages[0].AsksForTools();
      assert forall i :: 0 <= i < |messages[1..]| ==> messages[1..][i] == messages[i + 1];
      var next := s.Step(messages[0], texts);
      PlainMessages(next, messages[1..], texts);
      RenderedOther(messages, s.systemFound, texts);
      Regroup(s.messages, [next.messages[|s.messages|]], Rendered(messages[1..], next.systemFound, texts));
    }
  }

  /** At the end of a conversation, results that nothing asked for vanish. */
  lemma OrphansVanish(front: seq<Message>, orphans: seq<Message>, texts: Texts)
    requires NoToolMessages(front) && AreResults(orphans)
    ensures Inject(front + orphans, texts) == Inject(front, texts)
  {
    StepsAppend(Start(), front, orphans, texts);
    PlainMessages(Start(), front, texts);
    CollectResults(Start().Steps(front, texts), orphans, texts);
  }

  /** In front of an exchange they are shown as results of that exchange. */
  lemma OrphansJoinNextExchange(front: seq<Message>, orphans: seq<Message>, asking: Message, results: seq<Message>,
                                texts: Texts)
    requires NoToolMessages(front) && AreResults(orphans) && asking.AsksForTools() && AreResults(results)
        && results != []
    ensures Inject(front + orphans + [asking] + results, texts)
         == (if HasSystem(front) then [] else [System(texts.instructions)])
            + Rendered(front, false, texts)
            + [Assistant(BaseContent(asking.content, asking.toolCalls, texts)
                         + ResultsBlock(ResultTexts(orphans + results), texts), []),
               User(texts.continuation)]
    ensures ShowsExchange(BaseContent(asking.content, asking.toolCalls, texts)
                          + ResultsBlock(ResultTexts(orphans + results), texts), asking, orphans + results, texts)
  {
    hide BaseContent, ResultsBlock, Contains, Rendered, ShowsExchange;
    ExchangeIsShown(asking, orphans + results, texts);
    var waiting := StepsOfOrphans(front, orphans, texts);
    var all := front + orphans + ([asking] + results);
    assert front + orphans + [asking] + results == all;
    StepsAppend(Start(), front + orphans, [asking] + results, texts);
    var asked := waiting.Step(asking, texts);
    assert ([asking] + results)[1..] == results;
    CollectResults(asked, results, texts);
    assert asked.pending + ResultTexts(results) == ResultTexts(orphans + results);
    BlockContainsHeader(BaseContent(asking.content, asking.toolCalls, texts), ResultTexts(orphans + results), texts);
  }

  lemma StepsOfOrphans(front: seq<Message>, orphans: seq<Message>, texts: Texts) returns (s: State)
    requires NoToolMessages(front) && AreResults(orphans)
    ensures s == Start().Steps(front + orphans, texts)
    ensures s == State(Rendered(front, false, texts), HasSystem(front), ResultTexts(orphans), None)
  {
    hide Rendered;
    StepsAppend(Start(), front, orphans, texts);
    PlainMessages(Start(), front, texts);
    CollectResults(Start().Steps(front, texts), orphans, texts);
    assert [] + ResultTexts(orphans) == ResultTexts(orphans);
    assert [] + Rendered(front, false, texts) == Rendered(front, false, texts);
    s := Start().Steps(front + orphans, texts);
  }
}
