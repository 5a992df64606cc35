/** The tool-calling loop of the reasoner (ai/reasoner.py).

    The model and the tools are oracles: `generate(k)` is the response of iteration k, None where the
    call raises, and `execute(j)` is the outcome of the j-th executed tool call of the run. */
module ToolLoop {
  import opened Prelude
  import opened Conversation

  datatype Response = Response(content: string, toolCalls: seq<ToolCall>)

  /** `switched` tells whether the model override changed to a known, keyed model. */
  datatype ToolOutcome = ToolOutcome(content: string, switched: bool)

  // ----- Signatures and limits -----

  function Signature(call: ToolCall): string {
    call.name + ":" + call.parameters
  }

  /** The text before the first colon. */
  function BeforeColon(s: string): string {
    if s == "" || s[0] == ':' then "" else [s[0]] + BeforeColon(s[1..])
  }

  predicate IsExempt(signature: string) {
    BeforeColon(signature) in {"get_system_state", "search_memory"}
  }

  function Limit(tool: string): nat {
    if tool in {"update_system_state", "get_system_state"} then 25
    else if tool == "search_memory" then 15
    else 8
  }

  function Count(calls: seq<ToolCall>, tool: string): nat {
    if calls == [] then 0 else (if calls[0].name == tool then 1 else 0) + Count(calls[1..], tool)
  }

  predicate NoRepeats(calls: seq<ToolCall>) {
    forall i, j :: 0 <= i < j < |calls| && !IsExempt(Signature(calls[j])) ==> Signature(calls[i]) != Signature(calls[j])
  }

  predicate WithinLimits(calls: seq<ToolCall>) {
    forall i :: 0 <= i < |calls| ==> Count(calls, calls[i].name) <= Limit(calls[i].name)
  }

  /** No non-exempt call is repeated and no tool is called too often. */
  predicate IsSafe(calls: seq<ToolCall>) {
    NoRepeats(calls) && WithinLimits(calls)
  }

  /** For tool names without a colon, equal signatures are equal tools with equal parameters. */
  lemma {:induction false} SignatureIsInjective(a: ToolCall, b: ToolCall)
    requires ':' !in a.name && ':' !in b.name && Signature(a) == Signature(b)
    ensures a.name == b.name && a.parameters == b.parameters && BeforeColon(Signature(a)) == a.name
  {
    NameOfSignature(a.name, a.parameters);
    NameOfSignature(b.name, b.parameters);
    assert Signature(a)[|a.name| + 1..] == a.parameters;
    assert Signature(b)[|b.name| + 1..] == b.parameters;
  }

  lemma {:induction false} NameOfSignature(name: string, parameters: string)
    requires ':' !in name
    ensures BeforeColon(name + ":" + parameters) == name
  {
    if name != "" {
      assert (name + ":" + parameters)[1..] == name[1..] + ":" + parameters;
      NameOfSignature(name[1..], parameters);
    }
  }

  lemma {:induction false} CountIsBounded(calls: seq<ToolCall>, tool: string)
    requires WithinLimits(calls)
    ensures Count(calls, tool) <= Limit(tool)
  {
    if forall i :: 0 <= i < |calls| ==> calls[i].name != tool {
      CountOfAbsent(calls, tool);
    }
  }

  lemma {:induction false} CountOfAbsent(calls: seq<ToolCall>, tool: string)
    requires forall i :: 0 <= i < |calls| ==> calls[i].name != tool
    ensures Count(calls, tool) == 0
  {
    if calls != [] {
      CountOfAbsent(calls[1..], tool);
    }
  }

  lemma {:induction false} CountAppend(a: seq<ToolCall>, b: seq<ToolCall>, tool: string)
    ensures Count(a + b, tool) == Count(a, tool) + Count(b, tool)
  {
    if a == [] {
      assert a + b == b;
    } else {
      assert (a + b)[1..] == a[1..] + b;
      CountAppend(a[1..], b, tool);
    }
  }

  function CallNames(calls: seq<ToolCall>): (r: seq<string>)
    ensures |r| == |calls| && forall i :: 0 <= i < |r| ==> r[i] == calls[i].name
  {
    seq(|calls|, i requires 0 <= i < |calls| => calls[i].name)
  }

  /** update_system_state and get_system_state 25 times, search_memory 15 times, any other tool 8 times. */
  ghost predicate StaysInLimits(calls: seq<ToolCall>) {
    forall tool: string :: multiset(CallNames(calls))[tool] <=
                           (match tool
                            case "update_system_state" => 25
                            case "get_system_state" => 25
                            case "search_memory" => 15
                            case _ => 8)
  }

  /** Only the two tools that read are called twice with the same parameters. */
  predicate RepeatsOnlyReads(calls: seq<ToolCall>) {
    forall i, j | 0 <= i < j < |calls| && calls[i].name == calls[j].name
      && calls[i].parameters == calls[j].parameters ::
      calls[j].name == "get_system_state" || calls[j].name == "search_memory"
  }

  predicate ColonFree(calls: seq<ToolCall>) {
    forall i :: 0 <= i < |calls| ==> ':' !in calls[i].name
  }

  lemma {:induction false} CountIsMultiplicity(calls: seq<ToolCall>, tool: string)
    ensures Count(calls, tool) == multiset(CallNames(calls))[tool]
  {
    var names := CallNames(calls);
    if calls != [] {
      CountIsMultiplicity(calls[1..], tool);
      assert names == [names[0]] + CallNames(calls[1..]);
    }
  }

  /** What safe means, in numbers and names. */
  lemma SafeIff(calls: seq<ToolCall>)
    ensures WithinLimits(calls) <==> StaysInLimits(calls)
    ensures ColonFree(calls) ==> (NoRepeats(calls) <==> RepeatsOnlyReads(calls))
  {
    forall tool: string ensures Count(calls, tool) == multiset(CallNames(calls))[tool] {
      CountIsMultiplicity(calls, tool);
    }
    if WithinLimits(calls) {
      forall tool: string ensures Count(calls, tool) <= Limit(tool) {
        CountIsBounded(calls, tool);
      }
    }
    if ColonFree(calls) {
      RepeatsIff(calls);
    }
  }

  /** What safe runs keep to. */
  ghost predicate IsLimited(calls: seq<ToolCall>) {
    StaysInLimits(calls) && (ColonFree(calls) ==> RepeatsOnlyReads(calls))
  }

  lemma SafeIsLimited(calls: seq<ToolCall>)
    requires IsSafe(calls)
    ensures IsLimited(calls)
  {
    hide NoRepeats, WithinLimits, StaysInLimits, RepeatsOnlyReads;
    SafeIff(calls);
  }

  lemma RepeatsIff(calls: seq<ToolCall>)
    requires ColonFree(calls)
    ensures NoRepeats(calls) <==> RepeatsOnlyReads(calls)
  {
    hide Signature, BeforeColon;
    forall i, j | 0 <= i < |calls| && 0 <= j < |calls|
      ensures Signature(calls[i]) == Signature(calls[j]) <==>
              calls[i].name == calls[j].name && calls[i].parameters == calls[j].parameters
      ensures BeforeColon(Signature(calls[i])) == calls[i].name
    {
      SignaturesAreEqualIff(calls[i], calls[j]);
    }
  }

  lemma SignaturesAreEqualIff(a: ToolCall, b: ToolCall)
    requires ':' !in a.name && ':' !in b.name
    ensures Signature(a) == Signature(b) <==> a.name == b.name && a.parameters == b.parameters
    ensures BeforeColon(Signature(a)) == a.name
  {
    SignatureIsInjective(a, a);
    if Signature(a) == Signature(b) {
      SignatureIsInjective(a, b);
    }
  }

  /** A prefix of a safe log is safe. */
  lemma SafePrefix(a: seq<ToolCall>, b: seq<ToolCall>)
    requires IsSafe(a + b)
    ensures IsSafe(a)
  {
    assert forall i :: 0 <= i < |a| ==> (a + b)[i] == a[i];
    forall i | 0 <= i < |a| ensures Count(a, a[i].name) <= Limit(a[i].name) {
      CountAppend(a, b, a[i].name);
      assert (a + b)[i] == a[i];
    }
  }

  // ----- The contexts -----

  predicate Switches(call: ToolCall, outcome: ToolOutcome) {
    call.name == "switch_model" && outcome.switched
  }

  /** A context for another provider: no tool results and no messages that ask for tools. */
  function CleanContext(context: seq<Message>, rewrite: Message -> Message): seq<Message> {
    if context == [] then []
    else
      (match context[0]
       case System(_) => [System(rewrite(context[0]).content)]
       case User(_) => [User(rewrite(context[0]).content)]
       case Assistant(content, calls) => if calls == [] then [context[0]] else []
       case ToolResult(_, _, _) => []) + CleanContext(context[1..], rewrite)
  }

  lemma {:induction false} CleanContextHasNoTools(context: seq<Message>, rewrite: Message -> Message)
    ensures NoToolMessages(CleanContext(context, rewrite))
  {
    if context != [] {
      CleanContextHasNoTools(context[1..], rewrite);
    }
  }

  /** The context after the calls from the i-th on have been executed. */
  function AfterCalls(context: seq<Message>, calls: seq<ToolCall>, outcomes: seq<ToolOutcome>, i: nat,
                      rewrite: Message -> Message): seq<Message>
    requires i <= |calls| == |outcomes|
    decreases |calls| - i
  {
    if i == |calls| then context
    else
      var appended := context + [ToolResult(calls[i].id, calls[i].name, outcomes[i].content)];
      AfterCalls(if Switches(calls[i], outcomes[i]) then CleanContext(appended, rewrite) else appended,
                 calls, outcomes, i + 1, rewrite)
  }

  function AfterBatch(context: seq<Message>, content: string, calls: seq<ToolCall>, outcomes: seq<ToolOutcome>,
                      rewrite: Message -> Message): seq<Message>
    requires |calls| == |outcomes|
  {
    AfterCalls(context + [Assistant(content, calls)], calls, outcomes, 0, rewrite)
  }

  /** Partial content of a response that switches the model is dropped. */
  function AssistantContent(response: Response): string {
    if exists i :: 0 <= i < |response.toolCalls| && response.toolCalls[i].name == "switch_model" then ""
    else response.content
  }

  /** If the batch changes the model at all, its last call does. */
  predicate SwitchesLast(calls: seq<ToolCall>, outcomes: seq<ToolOutcome>)
    requires |calls| == |outcomes|
  {
    (exists i :: 0 <= i < |calls| && Switches(calls[i], outcomes[i])) ==>
      Switches(calls[|calls| - 1], outcomes[|calls| - 1])
  }

  function Contents(outcomes: seq<ToolOutcome>): (r: seq<string>)
    ensures |r| == |outcomes| && forall i :: 0 <= i < |r| ==> r[i] == outcomes[i].content
  {
    seq(|outcomes|, i requires 0 <= i < |outcomes| => outcomes[i].content)
  }

  /** Without a change of model the results are just appended. */
  lemma {:induction false} UnswitchedCalls(context: seq<Message>, calls: seq<ToolCall>, outcomes: seq<ToolOutcome>,
                                           i: nat, n: nat, rewrite: Message -> Message)
    requires i <= n <= |calls| == |outcomes|
    requires forall k :: i <= k < n ==> !Switches(calls[k], outcomes[k])
    ensures AfterCalls(context, calls, outcomes, i, rewrite)
         == AfterCalls(context + Results(calls, Contents(outcomes))[i..n], calls, outcomes, n, rewrite)
    decreases n - i
  {
    var results := Results(calls, Contents(outcomes));
    if i == n {
      assert context + results[i..n] == context;
    } else {
      UnswitchedCalls(context + [results[i]], calls, outcomes, i + 1, n, rewrite);
      assert context + [results[i]] + results[i + 1..n] == context + results[i..n];
    }
  }

  /** Results appended to a context without tool messages are orphans. */
  lemma OrphansStay(context: seq<Message>, calls: seq<ToolCall>, outcomes: seq<ToolOutcome>, i: nat,
                    rewrite: Message -> Message)
    requires i < |calls| == |outcomes| && NoToolMessages(context)
    requires forall k :: i <= k < |calls| ==> !Switches(calls[k], outcomes[k])
    ensures !WellFormed(AfterCalls(context, calls, outcomes, i, rewrite))
  {
    hide AfterCalls;
    var results := Results(calls, Contents(outcomes))[i..|calls|];
    UnswitchedCalls(context, calls, outcomes, i, |calls|, rewrite);
    NoMoreCalls(context + results, calls, outcomes, rewrite);
    NoToolMessagesIsWellFormed(context);
    OrphanIsIllFormed(context, results, []);
  }

  lemma NoMoreCalls(context: seq<Message>, calls: seq<ToolCall>, outcomes: seq<ToolOutcome>,
                    rewrite: Message -> Message)
    requires |calls| == |outcomes|
    ensures AfterCalls(context, calls, outcomes, |calls|, rewrite) == context
  {
  }

  /** A change of model at call s leaves a context without tool messages for the calls behind it. */
  lemma {:induction false} ContextAfterSwitch(context: seq<Message>, calls: seq<ToolCall>, outcomes: seq<ToolOutcome>,
                                              i: nat, s: nat, rewrite: Message -> Message) returns (clean: seq<Message>)
    requires i <= s < |calls| == |outcomes| && Switches(calls[s], outcomes[s])
    ensures NoToolMessages(clean)
    ensures AfterCalls(context, calls, outcomes, i, rewrite) == AfterCalls(clean, calls, outcomes, s + 1, rewrite)
    decreases s - i
  {
    var appended := context + [ToolResult(calls[i].id, calls[i].name, outcomes[i].content)];
    if i == s {
      clean := CleanContext(appended, rewrite);
      CleanContextHasNoTools(appended, rewrite);
    } else {
      var next := if Switches(calls[i], outcomes[i]) then CleanContext(appended, rewrite) else appended;
      clean := ContextAfterSwitch(next, calls, outcomes, i + 1, s, rewrite);
    }
  }

  lemma {:induction false} LastSwitch(calls: seq<ToolCall>, outcomes: seq<ToolOutcome>, n: nat) returns (s: nat)
    requires n <= |calls| == |outcomes|
    requires exists i :: 0 <= i < n && Switches(calls[i], outcomes[i])
    ensures s < n && Switches(calls[s], outcomes[s])
    ensures forall k :: s < k < n ==> !Switches(calls[k], outcomes[k])
  {
    if Switches(calls[n - 1], outcomes[n - 1]) {
      s := n - 1;
    } else {
      s := LastSwitch(calls, outcomes, n - 1);
    }
  }

  /** A batch keeps a context well-formed exactly when no call is executed behind its last change of model. */
  lemma BatchKeepsWellFormed(context: seq<Message>, content: string, calls: seq<ToolCall>, outcomes: seq<ToolOutcome>,
                             rewrite: Message -> Message)
    requires WellFormed(context) && calls != [] && |calls| == |outcomes|
    ensures WellFormed(AfterBatch(context, content, calls, outcomes, rewrite)) <==> SwitchesLast(calls, outcomes)
  {
    hide AfterCalls, WellFormedAfter;
    var asked := context + [Assistant(content, calls)];
    if exists i :: 0 <= i < |calls| && Switches(calls[i], outcomes[i]) {
      var s := LastSwitch(calls, outcomes, |calls|);
      var clean := ContextAfterSwitch(asked, calls, outcomes, 0, s, rewrite);
      if s == |calls| - 1 {
        NoMoreCalls(clean, calls, outcomes, rewrite);
        NoToolMessagesIsWellFormed(clean);
      } else {
        OrphansStay(clean, calls, outcomes, s + 1, rewrite);
      }
    } else {
      var results := Results(calls, Contents(outcomes));
      UnswitchedCalls(asked, calls, outcomes, 0, |calls|, rewrite);
      NoMoreCalls(asked + results[0..|calls|], calls, outcomes, rewrite);
      ExchangeIsWellFormed(content, calls, Contents(outcomes));
      WellFormedAppend(context, [Assistant(content, calls)] + results, []);
      assert asked + results[0..|calls|] == context + ([Assistant(content, calls)] + results);
    }
  }

  // ----- What is left of a context -----

  /** A system or user message whose text was rewritten n times. */
  function Rewritten(m: Message, rewrite: Message -> Message, n: nat): (r: Message)
    requires m.System? || m.User?
    ensures (r.System? <==> m.System?) && (r.User? <==> m.User?)
  {
    if n == 0 then m
    else
      var before := Rewritten(m, rewrite, n - 1);
      if before.System? then System(rewrite(before).content) else User(rewrite(before).content)
  }

  /** The message keeps its role; texts of the system and the user are rewritten, those of the assistant are not. */
  predicate IsCarried(old_: Message, new_: Message, rewrite: Message -> Message, n: nat) {
    match old_
    case Assistant(content, _) => new_ == Assistant(content, [])
    case ToolResult(_, _, _) => false
    case _ => new_ == Rewritten(old_, rewrite, n)
  }

  predicate IsCarriedAt(context: seq<Message>, p: nat, new_: Message, rewrite: Message -> Message, n: nat) {
    p < |context| && IsCarried(context[p], new_, rewrite, n)
  }

  /** The new context holds exactly the messages of the old one that are neither results nor ask for tools, in order. */
  ghost predicate IsCarriedFrom(context: seq<Message>, carried: seq<Message>, positions: seq<nat>,
                                rewrite: Message -> Message, n: nat)
  {
    && Selects(positions, context, IsPlain) && |carried| == |positions|
    && forall i :: 0 <= i < |positions| ==> IsCarriedAt(context, positions[i], carried[i], rewrite, n)
  }

  lemma {:induction false} CleanContextCarries(context: seq<Message>, rewrite: Message -> Message)
      returns (positions: seq<nat>)
    ensures IsCarriedFrom(context, CleanContext(context, rewrite), positions, rewrite, 1)
  {
    if context == [] {
      positions := [];
    } else {
      hide IsCarriedFrom, CleanContext;
      var rest := CleanContextCarries(context[1..], rewrite);
      positions := SelectedWith(rest, IsPlain(context[0]));
      var first := FirstCarried(context, rewrite);
      OneMoreCarried(context, first, rest, CleanContext(context[1..], rewrite), rewrite);
    }
  }

  lemma FirstCarried(context: seq<Message>, rewrite: Message -> Message) returns (first: seq<Message>)
    requires context != []
    ensures CleanContext(context, rewrite) == first + CleanContext(context[1..], rewrite)
    ensures |first| == if IsPlain(context[0]) then 1 else 0
    ensures |first| == 1 ==> IsCarriedAt(context, 0, first[0], rewrite, 1)
  {
    first := match context[0]
      case System(_) => [System(rewrite(context[0]).content)]
      case User(_) => [User(rewrite(context[0]).content)]
      case Assistant(content, calls) => if calls == [] then [context[0]] else []
      case ToolResult(_, _, _) => [];
    assert context[0].System? || context[0].User? ==> Rewritten(context[0], rewrite, 0) == context[0];
  }

  lemma CarriedBehind(context: seq<Message>, rest: seq<nat>, later: seq<Message>, rewrite: Message -> Message)
    requires context != [] && IsCarriedFrom(context[1..], later, rest, rewrite, 1)
    ensures |later| == |rest|
    ensures forall i :: 0 <= i < |rest| ==> IsCarriedAt(context, rest[i] + 1, later[i], rewrite, 1)
  {
    hide IsCarried, Selects;
    forall i | 0 <= i < |rest| ensures IsCarriedAt(context, rest[i] + 1, later[i], rewrite, 1) {
      assert IsCarriedAt(context[1..], rest[i], later[i], rewrite, 1);
    }
  }

  lemma OneMoreCarried(context: seq<Message>, first: seq<Message>, rest: seq<nat>, later: seq<Message>,
                       rewrite: Message -> Message)
    requires context != [] && |first| == if IsPlain(context[0]) then 1 else 0
    requires |first| == 1 ==> IsCarriedAt(context, 0, first[0], rewrite, 1)
    requires IsCarriedFrom(context[1..], later, rest, rewrite, 1)
    ensures IsCarriedFrom(context, first + later, SelectedWith(rest, IsPlain(context[0])), rewrite, 1)
  {
    SelectsCons(rest, context, IsPlain);
    CarriedBehind(context, rest, later, rewrite);
    AllCarried(context, first, rest, later, IsPlain(context[0]), rewrite);
    hide IsCarriedAt, Selects, IsPlain, SelectedWith;
  }

  lemma AllCarried(context: seq<Message>, first: seq<Message>, rest: seq<nat>, later: seq<Message>, keepsFirst: bool,
                   rewrite: Message -> Message)
    requires |first| == (if keepsFirst then 1 else 0) && |later| == |rest|
    requires keepsFirst ==> IsCarriedAt(context, 0, first[0], rewrite, 1)
    requires forall i :: 0 <= i < |rest| ==> IsCarriedAt(context, rest[i] + 1, later[i], rewrite, 1)
    ensures
      var positions := SelectedWith(rest, keepsFirst);
      && |positions| == |first + later|
      && forall i :: 0 <= i < |positions| ==> IsCarriedAt(context, positions[i], (first + later)[i], rewrite, 1)
  {
    hide IsCarriedAt;
    if keepsFirst {
      assert SelectedWith(rest, keepsFirst) == [0] + Shifted(rest) && first == [first[0]];
    } else {
      assert first + later == later;
    }
  }

  lemma {:induction false} CleanContextAppend(a: seq<Message>, b: seq<Message>, rewrite: Message -> Message)
    ensures CleanContext(a + b, rewrite) == CleanContext(a, rewrite) + CleanContext(b, rewrite)
  {
    if a == [] {
      assert a + b == b;
    } else {
      assert (a + b)[1..] == a[1..] + b;
      CleanContextAppend(a[1..], b, rewrite);
    }
  }

  lemma {:induction false} ToolMessagesAreDropped(messages: seq<Message>, rewrite: Message -> Message)
    requires forall i :: 0 <= i < |messages| ==> !IsPlain(messages[i])
    ensures CleanContext(messages, rewrite) == []
  {
    if messages != [] {
      assert !IsPlain(messages[0]);
      ToolMessagesAreDropped(messages[1..], rewrite);
    }
  }

  predicate IsRewrittenOnce(old_: Message, new_: Message, rewrite: Message -> Message) {
    match old_
    case System(_) => new_ == System(rewrite(old_).content)
    case User(_) => new_ == User(rewrite(old_).content)
    case _ => new_ == old_
  }

  /** A context of plain messages keeps them all. */
  lemma {:induction false} PlainContextIsKept(context: seq<Message>, rewrite: Message -> Message)
    requires forall i :: 0 <= i < |context| ==> IsPlain(context[i])
    ensures
      var clean := CleanContext(context, rewrite);
      && |clean| == |context|
      && forall i :: 0 <= i < |clean| ==> IsPlain(clean[i]) && IsRewrittenOnce(context[i], clean[i], rewrite)
  {
    if context != [] {
      assert IsPlain(context[0]);
      PlainContextIsKept(context[1..], rewrite);
    }
  }

  function CleanTimes(context: seq<Message>, rewrite: Message -> Message, n: nat): seq<Message> {
    if n == 0 then context else CleanContext(CleanTimes(context, rewrite, n - 1), rewrite)
  }

  lemma {:induction false} CleanTimesCarries(context: seq<Message>, rewrite: Message -> Message, n: nat)
      returns (positions: seq<nat>)
    requires n > 0
    ensures IsCarriedFrom(context, CleanTimes(context, rewrite, n), positions, rewrite, n)
    ensures forall i :: 0 <= i < |CleanTimes(context, rewrite, n)| ==> IsPlain(CleanTimes(context, rewrite, n)[i])
  {
    if n == 1 {
      assert CleanTimes(context, rewrite, 0) == context;
      positions := CleanContextCarries(context, rewrite);
    } else {
      hide Selects;
      positions := CleanTimesCarries(context, rewrite, n - 1);
      PlainContextIsKept(CleanTimes(context, rewrite, n - 1), rewrite);
    }
  }

  /** How many of the first n calls change the model. */
  function Changes(calls: seq<ToolCall>, outcomes: seq<ToolOutcome>, n: nat): nat
    requires n <= |calls| == |outcomes|
  {
    if n == 0 then 0
    else
      Changes(calls, outcomes, n - 1)
      + if calls[n - 1].name == "switch_model" && outcomes[n - 1].switched then 1 else 0
  }

  /** The calls from position i on have been answered. */
  predicate AreResults(messages: seq<Message>, calls: seq<ToolCall>, outcomes: seq<ToolOutcome>, i: nat) {
    && i <= |calls| == |outcomes| && |messages| == |calls| - i
    && forall k :: i <= k < |calls| ==> messages[k - i] == ToolResult(calls[k].id, calls[k].name, outcomes[k].content)
  }

  /** Call s is the last one that changes the model. */
  predicate IsLastChange(calls: seq<ToolCall>, outcomes: seq<ToolOutcome>, s: nat)
    requires |calls| == |outcomes|
  {
    && s < |calls| && calls[s].name == "switch_model" && outcomes[s].switched
    && forall k :: s < k < |calls| ==> !(calls[k].name == "switch_model" && outcomes[k].switched)
  }

  /** The context behind a batch.  Without a change of model it is the old one, the message that asks and all results;
      else it is what the changes leave of the old one, and the results of the calls behind the last change. */
  ghost predicate IsContextBehind(context: seq<Message>, content: string, calls: seq<ToolCall>,
                                  outcomes: seq<ToolOutcome>, rewrite: Message -> Message, next: seq<Message>)
    requires |calls| == |outcomes|
  {
    if Changes(calls, outcomes, |calls|) == 0 then
      exists results ::
        AreResults(results, calls, outcomes, 0) && next == context + [Assistant(content, calls)] + results
    else
      exists s: nat, positions: seq<nat>, carried: seq<Message>, results: seq<Message> ::
        && IsLastChange(calls, outcomes, s) && AreResults(results, calls, outcomes, s + 1)
        && IsCarriedFrom(context, carried, positions, rewrite, Changes(calls, outcomes, |calls|))
        && next == carried + results
  }

  lemma {:induction false} NoChanges(calls: seq<ToolCall>, outcomes: seq<ToolOutcome>, n: nat)
    requires n <= |calls| == |outcomes|
    ensures Changes(calls, outcomes, n) == 0 <==> forall k :: 0 <= k < n ==> !Switches(calls[k], outcomes[k])
  {
    if n > 0 {
      NoChanges(calls, outcomes, n - 1);
    }
  }

  lemma {:induction false} NoLaterChanges(calls: seq<ToolCall>, outcomes: seq<ToolOutcome>, s: nat, n: nat)
    requires s <= n <= |calls| == |outcomes| && forall k :: s <= k < n ==> !Switches(calls[k], outcomes[k])
    ensures Changes(calls, outcomes, n) == Changes(calls, outcomes, s)
    decreases n - s
  {
    if s < n {
      NoLaterChanges(calls, outcomes, s, n - 1);
    }
  }

  lemma AfterOneCall(context: seq<Message>, calls: seq<ToolCall>, outcomes: seq<ToolOutcome>, i: nat,
                     rewrite: Message -> Message)
    requires i < |calls| == |outcomes|
    ensures
      var appended := context + [ToolResult(calls[i].id, calls[i].name, outcomes[i].content)];
      AfterCalls(context, calls, outcomes, i, rewrite)
      == AfterCalls(if Switches(calls[i], outcomes[i]) then CleanContext(appended, rewrite) else appended,
                    calls, outcomes, i + 1, rewrite)
  {
  }

  /** Up to the last change of model, everything since the one before it is dropped again. */
  lemma {:induction false} ChangesClean(context: seq<Message>, dropped: seq<Message>, calls: seq<ToolCall>,
                                        outcomes: seq<ToolOutcome>, i: nat, s: nat, rewrite: Message -> Message)
    requires i <= s < |calls| == |outcomes| && Switches(calls[s], outcomes[s])
    requires forall k :: 0 <= k < |dropped| ==> !IsPlain(dropped[k])
    ensures AfterCalls(CleanTimes(context, rewrite, Changes(calls, outcomes, i)) + dropped, calls, outcomes, i, rewrite)
         == AfterCalls(CleanTimes(context, rewrite, Changes(calls, outcomes, s + 1)), calls, outcomes, s + 1, rewrite)
    decreases s - i
  {
    hide CleanContext;
    var clean := CleanTimes(context, rewrite, Changes(calls, outcomes, i));
    var more := dropped + [ToolResult(calls[i].id, calls[i].name, outcomes[i].content)];
    assert clean + dropped + [ToolResult(calls[i].id, calls[i].name, outcomes[i].content)] == clean + more;
    CleanContextAppend(clean, more, rewrite);
    ToolMessagesAreDropped(more, rewrite);
    assert CleanContext(clean, rewrite) + [] == CleanContext(clean, rewrite);
    AfterOneCall(clean + dropped, calls, outcomes, i, rewrite);
    if i < s {
      var next := if Switches(calls[i], outcomes[i]) then [] else more;
      ChangesClean(context, next, calls, outcomes, i + 1, s, rewrite);
      assert CleanContext(clean, rewrite) + next == CleanContext(clean, rewrite) || next == more;
    }
  }

  /** The text of a response stays unless it asks for another model. */
  function ContentToKeep(response: Response): string {
    if "switch_model" in CallNames(response.toolCalls) then "" else response.content
  }

  lemma KeptContent(response: Response)
    ensures AssistantContent(response) == ContentToKeep(response)
  {
    var calls, names := response.toolCalls, CallNames(response.toolCalls);
    if "switch_model" in names {
      var i :| 0 <= i < |names| && names[i] == "switch_model";
      assert calls[i].name == "switch_model";
    }
    assert forall i :: 0 <= i < |calls| ==> calls[i].name == names[i];
  }

  lemma UnchangedContext(context: seq<Message>, content: string, calls: seq<ToolCall>, outcomes: seq<ToolOutcome>,
                         rewrite: Message -> Message)
    requires |calls| == |outcomes| && Changes(calls, outcomes, |calls|) == 0
    ensures IsContextBehind(context, content, calls, outcomes, rewrite,
                            AfterBatch(context, content, calls, outcomes, rewrite))
  {
    hide AfterCalls, IsCarriedFrom, Changes;
    var asked, results := context + [Assistant(content, calls)], Results(calls, Contents(outcomes));
    NoChanges(calls, outcomes, |calls|);
    UnswitchedCalls(asked, calls, outcomes, 0, |calls|, rewrite);
    NoMoreCalls(asked + results[0..|calls|], calls, outcomes, rewrite);
    assert AreResults(results[0..|calls|], calls, outcomes, 0);
  }

  /** Behind the last change of model the context is what all changes leave of the old one. */
  lemma CallsBehindLastChange(context: seq<Message>, content: string, calls: seq<ToolCall>,
                              outcomes: seq<ToolOutcome>, s: nat, rewrite: Message -> Message)
    requires |calls| == |outcomes| && s < |calls| && IsLastChange(calls, outcomes, s)
    ensures
      var n := Changes(calls, outcomes, |calls|);
      && n > 0
      && AfterBatch(context, content, calls, outcomes, rewrite)
         == CleanTimes(context, rewrite, n) + Results(calls, Contents(outcomes))[s + 1..|calls|]
  {
    hide AfterCalls, CleanTimes;
    var carried := CleanTimes(context, rewrite, Changes(calls, outcomes, s + 1));
    NoLaterChanges(calls, outcomes, s + 1, |calls|);
    hide Changes;
    assert CleanTimes(context, rewrite, 0) == context by {
      NoCleaning(context, rewrite);
    }
    NoChangesYet(calls, outcomes);
    ChangesClean(context, [Assistant(content, calls)], calls, outcomes, 0, s, rewrite);
    UnswitchedCalls(carried, calls, outcomes, s + 1, |calls|, rewrite);
    NoMoreCalls(carried + Results(calls, Contents(outcomes))[s + 1..|calls|], calls, outcomes, rewrite);
  }

  lemma NoCleaning(context: seq<Message>, rewrite: Message -> Message)
    ensures CleanTimes(context, rewrite, 0) == context
  {
  }

  lemma NoChangesYet(calls: seq<ToolCall>, outcomes: seq<ToolOutcome>)
    requires |calls| == |outcomes|
    ensures Changes(calls, outcomes, 0) == 0
  {
  }

  /** The context behind every batch. */
  lemma BatchContext(context: seq<Message>, content: string, calls: seq<ToolCall>, outcomes: seq<ToolOutcome>,
                     rewrite: Message -> Message)
    requires calls != [] && |calls| == |outcomes|
    ensures IsContextBehind(context, content, calls, outcomes, rewrite,
                            AfterBatch(context, content, calls, outcomes, rewrite))
  {
    hide AfterCalls, IsCarriedFrom, AfterBatch, CleanTimes, Changes;
    if Changes(calls, outcomes, |calls|) == 0 {
      UnchangedContext(context, content, calls, outcomes, rewrite);
    } else {
      NoChanges(calls, outcomes, |calls|);
      var s := LastSwitch(calls, outcomes, |calls|);
      CallsBehindLastChange(context, content, calls, outcomes, s, rewrite);
      var positions := CleanTimesCarries(context, rewrite, Changes(calls, outcomes, |calls|));
      assert AreResults(Results(calls, Contents(outcomes))[s + 1..|calls|], calls, outcomes, s + 1);
    }
  }

  // ----- The loop -----

  /** The calls of the first n iterations, in order. */
  function CallsBefore(generate: nat -> Option<Response>, n: nat): seq<ToolCall> {
    if n == 0 then []
    else CallsBefore(generate, n - 1) + match generate(n - 1) case Some(r) => r.toolCalls case None => []
  }

  function Outcomes(execute: nat -> ToolOutcome, first: nat, n: nat): (r: seq<ToolOutcome>)
    ensures |r| == n && forall i :: 0 <= i < n ==> r[i] == execute(first + i)
  {
    seq(n, i requires 0 <= i < n => execute(first + i))
  }

  /** Batch k leaves no call behind its last change of model. */
  predicate BatchSwitchesLast(generate: nat -> Option<Response>, execute: nat -> ToolOutcome, k: nat)
    requires generate(k).Some?
  {
    var calls := generate(k).value.toolCalls;
    SwitchesLast(calls, Outcomes(execute, |CallsBefore(generate, k)|, |calls|))
  }

  predicate AllCall(generate: nat -> Option<Response>, n: nat) {
    forall k: nat :: k < n ==> generate(k).Some? && generate(k).value.toolCalls != []
  }

  /** The signatures are those of the non-exempt calls. */
  ghost predicate Tracks(signatures: set<string>, calls: seq<ToolCall>) {
    forall sig: string :: sig in signatures <==>
      exists i :: 0 <= i < |calls| && Signature(calls[i]) == sig && !IsExempt(sig)
  }

  lemma TrackStep(signatures: set<string>, seen: seq<ToolCall>, call: ToolCall)
    requires Tracks(signatures, seen) && NoRepeats(seen)
    ensures
      var sig := Signature(call);
      if IsExempt(sig) then Tracks(signatures, seen + [call]) && NoRepeats(seen + [call])
      else if sig in signatures then !NoRepeats(seen + [call])
      else Tracks(signatures + {sig}, seen + [call]) && NoRepeats(seen + [call])
  {
    hide Signature, IsExempt;
    var all := seen + [call];
    assert all[|seen|] == call && forall k :: 0 <= k < |seen| ==> all[k] == seen[k];
    var sig := Signature(call);
    if sig in signatures {
      var i :| 0 <= i < |seen| && Signature(seen[i]) == sig && !IsExempt(sig);
      assert Signature(all[i]) == Signature(all[|seen|]);
    }
  }

  lemma RepeatStays(a: seq<ToolCall>, b: seq<ToolCall>)
    requires !NoRepeats(a)
    ensures !NoRepeats(a + b)
  {
    var i, j :| 0 <= i < j < |a| && !IsExempt(Signature(a[j])) && Signature(a[i]) == Signature(a[j]);
    assert (a + b)[i] == a[i] && (a + b)[j] == a[j];
  }

  datatype Ending =
    | Answered(iteration: nat)        // a response without tool calls
    | Stuck(iteration: nat)           // a loop was detected: the model is made to answer without tools
    | Exhausted                       // no iterations left
    | Failed(iteration: nat)          // the model call raised

  class Reasoner {
    var signatures: set<string>       // the signatures of non-exempt calls
    var history: seq<ToolCall>        // all calls asked for, batch after batch
    var executed: seq<ToolCall>       // what the tool registry was asked to execute
    var context: seq<Message>
    var sent: seq<seq<Message>>       // the contexts of the model calls

    constructor (initial: seq<Message>)
      ensures context == initial && executed == [] && sent == [] && history == [] && signatures == {}
    {
      signatures, history, executed, context, sent := {}, [], [], initial, [];
    }

    /** Both detectors.  The batch passes exactly when the whole run stays safe with it. */
    method DetectLoop(calls: seq<ToolCall>) returns (loopDetected: bool)
      requires Tracks(signatures, history) && IsSafe(history)
      modifies this`signatures, this`history
      ensures history == old(history) + calls
      ensures loopDetected <==> !IsSafe(history)
      ensures !loopDetected ==> Tracks(signatures, history)
    {
      hide Tracks, NoRepeats, IsExempt;
      ghost var before := history;
      history := history + calls;
      assert before + calls[..0] == before;
      for i := 0 to |calls|
        invariant history == before + calls
        invariant Tracks(signatures, before + calls[..i]) && NoRepeats(before + calls[..i])
      {
        assert before + calls[..i + 1] == before + calls[..i] + [calls[i]];
        assert before + calls[..i + 1] + calls[i + 1..] == history;
        TrackStep(signatures, before + calls[..i], calls[i]);
        var sig := Signature(calls[i]);
        if IsExempt(sig) {
          continue;
        }
        if sig in signatures {
          RepeatStays(before + calls[..i + 1], calls[i + 1..]);
          return true;
        }
        signatures := signatures + {sig};
      }
      assert before + calls[..|calls|] == history;
      for i := 0 to |history|
        invariant history == before + calls
        invariant forall k :: 0 <= k < i ==> Count(history, history[k].name) <= Limit(history[k].name)
      {
        if Count(history, history[i].name) > Limit(history[i].name) {
          return true;
        }
      }
      return false;
    }

    /** Executes one batch and appends its messages to the context. */
    method ExecuteBatch(response: Response, execute: nat -> ToolOutcome, rewrite: Message -> Message)
      requires response.toolCalls != []
      modifies this`executed, this`context
      ensures executed == old(executed) + response.toolCalls
      ensures context == AfterBatch(old(context), AssistantContent(response), response.toolCalls,
                                    Outcomes(execute, |old(executed)|, |response.toolCalls|), rewrite)
      ensures IsContextBehind(old(context), ContentToKeep(response), response.toolCalls,
                              Outcomes(execute, |old(executed)|, |response.toolCalls|), rewrite, context)
    {
      hide AfterCalls, IsContextBehind;
      var calls := response.toolCalls;
      ghost var start := |executed|;
      ghost var outcomes := Outcomes(execute, start, |calls|);
      context := context + [Assistant(AssistantContent(response), calls)];
      ghost var asked := context;
      for i := 0 to |calls|
        invariant executed == old(executed) + calls[..i]
        invariant AfterCalls(context, calls, outcomes, i, rewrite) == AfterCalls(asked, calls, outcomes, 0, rewrite)
      {
        AfterOneCall(context, calls, outcomes, i, rewrite);
        var outcome := execute(|executed|);
        executed := executed + [calls[i]];
        context := context + [ToolResult(calls[i].id, calls[i].name, outcome.content)];
        if Switches(calls[i], outcome) {
          context := CleanContext(context, rewrite);
        }
      }
      NoMoreCalls(context, calls, outcomes, rewrite);
      BatchContext(old(context), AssistantContent(response), calls, outcomes, rewrite);
      KeptContent(response);
    }

    method ProcessInput(initial: seq<Message>, maxIterations: int, generate: nat -> Option<Response>,
                        execute: nat -> ToolOutcome, rewrite: Message -> Message) returns (ending: Ending)
      requires NoToolMessages(initial)
      modifies this
      ensures IsSafe(executed) && IsLimited(executed)
      ensures match ending
        case Answered(k) => AllCall(generate, k) && generate(k).Some? && generate(k).value.toolCalls == []
          && executed == CallsBefore(generate, k)
        case Stuck(k) => AllCall(generate, k + 1) && executed == CallsBefore(generate, k)
          && !IsSafe(CallsBefore(generate, k + 1))
        case Exhausted => executed == CallsBefore(generate, Iterations(maxIterations))
          && AllCall(generate, Iterations(maxIterations))
        case Failed(k) => AllCall(generate, k) && generate(k).None? && executed == CallsBefore(generate, k)
      ensures |sent| ==
        if !ending.Exhausted? then ending.iteration + 1 else if maxIterations <= 0 then 1 else maxIterations
      ensures SentAreWellFormed(sent, generate, execute)
      ensures sent != [] && sent[0] == initial && SentFollow(sent, generate, execute, rewrite)
    {
      hide AfterCalls, IsSafe, Tracks, SentAreWellFormed, AfterBatch, AssistantContent, CallsBefore, AllCall;
      hide IsContextBehind, ContentToKeep, Outcomes, IsLimited, SentFollow;
      signatures, history, executed, context, sent := {}, [], [], initial, [];
      FirstContext(initial, generate, execute);
      NothingSeen();
      NothingCalled(generate);
      SafeIsLimited([]);
      FirstFollows(initial, generate, execute, rewrite);
      assert sent + [context] == [initial];
      var n := if maxIterations <= 0 then 1 else maxIterations;
      for iteration := 0 to n
        invariant history == executed == CallsBefore(generate, iteration) && AllCall(generate, iteration)
        invariant Tracks(signatures, history) && IsSafe(history) && IsLimited(executed)
        invariant |sent| == iteration && SentAreWellFormed(sent + [context], generate, execute)
        invariant SentFollow(sent + [context], generate, execute, rewrite) && (sent + [context])[0] == initial
      {
        sent := sent + [context];
        if generate(iteration).None? {
          return Failed(iteration);
        }
        var response := generate(iteration).value;
        if response.toolCalls == [] {
          return Answered(iteration);
        }
        CallsNext(generate, iteration);
        var loopDetected := DetectLoop(response.toolCalls);
        if loopDetected {
          return Stuck(iteration);
        }
        ghost var before := context;
        ExecuteBatch(response, execute, rewrite);
        SafeIsLimited(executed);
        NextFollows(sent, context, generate, execute, rewrite);
        NextContext(sent, before, context, generate, execute, rewrite);
      }
      SentPrefix(sent, context, generate, execute);
      FollowPrefix(sent, context, generate, execute, rewrite);
      return Exhausted;
    }
  }

  function Iterations(maxIterations: int): nat {
    if maxIterations <= 0 then 1 else maxIterations
  }

  /** As long as no batch executes a call behind its last change of model, every context sent is
      well-formed; the first batch that does spoils the next one. */
  ghost predicate SentAreWellFormed(sent: seq<seq<Message>>, generate: nat -> Option<Response>,
                                    execute: nat -> ToolOutcome)
  {
    && (|sent| > 0 ==> WellFormed(sent[0]))
    && (forall k: nat :: k + 1 < |sent| ==> generate(k).Some?)
    && (forall k: nat :: k + 1 < |sent| && WellFormed(sent[k]) ==>
          (WellFormed(sent[k + 1]) <==> BatchSwitchesLast(generate, execute, k)))
  }

  /** Each context sent is the one before it and what one batch makes of it. */
  ghost predicate SentFollow(sent: seq<seq<Message>>, generate: nat -> Option<Response>, execute: nat -> ToolOutcome,
                             rewrite: Message -> Message)
  {
    forall k: nat | k + 1 < |sent| :: FollowsBatch(sent[k], sent[k + 1], k, generate, execute, rewrite)
  }

  ghost predicate FollowsBatch(before: seq<Message>, after: seq<Message>, k: nat, generate: nat -> Option<Response>,
                               execute: nat -> ToolOutcome, rewrite: Message -> Message)
  {
    && generate(k).Some?
    && var response := generate(k).value;
       var outcomes := Outcomes(execute, |CallsBefore(generate, k)|, |response.toolCalls|);
       IsContextBehind(before, ContentToKeep(response), response.toolCalls, outcomes, rewrite, after)
  }

  lemma FirstFollows(initial: seq<Message>, generate: nat -> Option<Response>, execute: nat -> ToolOutcome,
                     rewrite: Message -> Message)
    ensures SentFollow([initial], generate, execute, rewrite)
  {
  }

  lemma NextFollows(sent: seq<seq<Message>>, after: seq<Message>, generate: nat -> Option<Response>,
                    execute: nat -> ToolOutcome, rewrite: Message -> Message)
    requires sent != [] && SentFollow(sent, generate, execute, rewrite)
    requires FollowsBatch(sent[|sent| - 1], after, |sent| - 1, generate, execute, rewrite)
    ensures SentFollow(sent + [after], generate, execute, rewrite)
  {
    hide FollowsBatch;
    var all := sent + [after];
    forall k: nat | k + 1 < |all| ensures FollowsBatch(all[k], all[k + 1], k, generate, execute, rewrite) {
      assert k + 1 < |sent| ==> all[k] == sent[k] && all[k + 1] == sent[k + 1];
    }
  }

  lemma FollowPrefix(sent: seq<seq<Message>>, context: seq<Message>, generate: nat -> Option<Response>,
                     execute: nat -> ToolOutcome, rewrite: Message -> Message)
    requires SentFollow(sent + [context], generate, execute, rewrite)
    ensures SentFollow(sent, generate, execute, rewrite)
  {
    hide FollowsBatch;
    var all := sent + [context];
    forall k: nat | k + 1 < |sent| ensures FollowsBatch(sent[k], sent[k + 1], k, generate, execute, rewrite) {
      assert all[k] == sent[k] && all[k + 1] == sent[k + 1];
    }
  }

  lemma NothingSeen()
    ensures Tracks({}, []) && IsSafe([])
  {
  }

  lemma NothingCalled(generate: nat -> Option<Response>)
    ensures CallsBefore(generate, 0) == [] && AllCall(generate, 0)
  {
  }

  lemma CallsNext(generate: nat -> Option<Response>, k: nat)
    requires AllCall(generate, k) && generate(k).Some? && generate(k).value.toolCalls != []
    ensures CallsBefore(generate, k + 1) == CallsBefore(generate, k) + generate(k).value.toolCalls
    ensures AllCall(generate, k + 1)
  {
  }

  lemma FirstContext(initial: seq<Message>, generate: nat -> Option<Response>, execute: nat -> ToolOutcome)
    requires NoToolMessages(initial)
    ensures SentAreWellFormed([initial], generate, execute)
  {
    NoToolMessagesIsWellFormed(initial);
  }

  lemma SentPrefix(sent: seq<seq<Message>>, context: seq<Message>, generate: nat -> Option<Response>,
                   execute: nat -> ToolOutcome)
    requires SentAreWellFormed(sent + [context], generate, execute)
    ensures SentAreWellFormed(sent, generate, execute)
  {
    var all := sent + [context];
    assert forall k: nat :: k < |sent| ==> all[k] == sent[k];
  }

  lemma NextContext(sent: seq<seq<Message>>, before: seq<Message>, after: seq<Message>,
                    generate: nat -> Option<Response>, execute: nat -> ToolOutcome, rewrite: Message -> Message)
    requires sent != [] && sent[|sent| - 1] == before && SentAreWellFormed(sent, generate, execute)
    requires generate(|sent| - 1).Some? && generate(|sent| - 1).value.toolCalls != []
    requires
      var response := generate(|sent| - 1).value;
      after == AfterBatch(before, AssistantContent(response), response.toolCalls,
                          Outcomes(execute, |CallsBefore(generate, |sent| - 1)|, |response.toolCalls|), rewrite)
    ensures SentAreWellFormed(sent + [after], generate, execute)
  {
    hide AfterCalls, WellFormedAfter, SwitchesLast, AssistantContent;
    var k := |sent| - 1;
    var calls := generate(k).value.toolCalls;
    var outcomes := Outcomes(execute, |CallsBefore(generate, k)|, |calls|);
    if WellFormed(before) {
      BatchKeepsWellFormed(before, AssistantContent(generate(k).value), calls, outcomes, rewrite);
    }
    assert forall i: nat :: i < |sent| ==> (sent + [after])[i] == sent[i];
  }
}
