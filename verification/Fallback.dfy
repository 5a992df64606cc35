/** Retrying one model and falling back along a chain (ai/fallback.py). */
module Fallback {
  import opened Prelude
  import opened Conversation

  // ----- Retrying the primary model -----

  /** What the engine reads off the text of an error. */
  datatype Failure = Failure(isEmptyResponse: bool, isTransient: bool) {
    predicate IsRetryable() {
      isTransient || isEmptyResponse
    }
  }

  datatype Outcome<+R> = Success(response: R) | Failed(failure: Failure)

  /** One of the first n calls ended with an empty response. */
  predicate EmptySeen<R>(call: nat -> Outcome<R>, n: nat) {
    exists k: nat :: k < n && call(k).Failed? && call(k).failure.isEmptyResponse
  }

  /** The limit in force once n calls have failed. */
  function LimitAfter<R>(call: nat -> Outcome<R>, maxRetries: int, n: nat): int {
    if EmptySeen(call, n) then Max(maxRetries, 4) else maxRetries
  }

  /** Call k failed in a way that leads to another call. */
  predicate GoesOn<R>(call: nat -> Outcome<R>, maxRetries: int, k: nat) {
    call(k).Failed? && call(k).failure.IsRetryable() && k < LimitAfter(call, maxRetries, k + 1) - 1
  }

  /** A run makes n calls: each but the last goes on, the last one succeeds or ends the run. */
  ghost predicate IsRun<R>(call: nat -> Outcome<R>, maxRetries: int, n: nat) {
    && (n == 0 <==> maxRetries <= 0)
    && (forall k: nat :: k + 1 < n ==> GoesOn(call, maxRetries, k))
    && (n > 0 ==> !GoesOn(call, maxRetries, n - 1))
  }

  function EmptyResponseDelay(k: nat): nat {
    if k == 0 then 2 else if k == 1 then 5 else if k == 2 then 10 else 15
  }

  function RetryDelay(k: nat): nat {
    if k == 0 then 1 else if k == 1 then 2 else 4
  }

  /** Seconds slept in front of call n. */
  function Slept<R>(call: nat -> Outcome<R>, n: nat): nat {
    if n <= 1 then 0
    else Slept(call, n - 1) + (if EmptySeen(call, n - 1) then EmptyResponseDelay(n - 2) else RetryDelay(n - 2))
  }

  datatype Error = Error(attempt: nat, failure: Failure)

  datatype RetryResult<+R> =
    | Response(response: R)
    | Unknown
    | NoKey
    | Exhausted(errors: seq<Error>, isEmptyResponseIssue: bool)

  lemma EmptySeenSnoc<R>(call: nat -> Outcome<R>, n: nat)
    ensures EmptySeen(call, n + 1) <==> EmptySeen(call, n) || (call(n).Failed? && call(n).failure.isEmptyResponse)
  {
    if EmptySeen(call, n) {
      var k: nat :| k < n && call(k).Failed? && call(k).failure.isEmptyResponse;
      assert k < n + 1;
    }
  }

  /** The recorded errors are those of the first n calls, which all failed. */
  ghost predicate AreErrorsOf<R>(errors: seq<Error>, call: nat -> Outcome<R>, n: nat) {
    |errors| == n && forall i: nat :: i < n ==> call(i).Failed? && errors[i] == Error(i + 1, call(i).failure)
  }

  ghost predicate AllGoOn<R>(call: nat -> Outcome<R>, maxRetries: int, n: nat) {
    forall k: nat :: k < n ==> GoesOn(call, maxRetries, k)
  }

  lemma RunOf<R>(call: nat -> Outcome<R>, maxRetries: int, n: nat)
    requires maxRetries > 0 && AllGoOn(call, maxRetries, n) && !GoesOn(call, maxRetries, n)
    ensures IsRun(call, maxRetries, n + 1)
  {
  }

  method GeneratePrimaryWithRetry<R>(provider: Option<string>, keys: set<string>, call: nat -> Outcome<R>,
                                     maxRetries: int)
      returns (result: RetryResult<R>, calls: nat, slept: nat)
    ensures provider.None? ==> result == Unknown && calls == 0
    ensures provider.Some? && provider.value != "ollama" && provider.value !in keys ==> result == NoKey && calls == 0
    ensures provider.Some? && (provider.value == "ollama" || provider.value in keys) ==>
      && IsRun(call, maxRetries, calls) && slept == Slept(call, calls)
      && (if calls > 0 && call(calls - 1).Success? then result == Response(call(calls - 1).response)
          else result.Exhausted? && AreErrorsOf(result.errors, call, calls)
               && result.isEmptyResponseIssue == EmptySeen(call, calls))
  {
    if provider.None? {
      return Unknown, 0, 0;
    }
    if provider.value != "ollama" && provider.value !in keys {
      return NoKey, 0, 0;
    }
    result, calls, slept := RetryLoop(call, maxRetries);
  }

  method RetryLoop<R>(call: nat -> Outcome<R>, maxRetries: int) returns (result: RetryResult<R>, calls: nat, slept: nat)
    ensures IsRun(call, maxRetries, calls) && slept == Slept(call, calls)
    ensures calls > 0 && call(calls - 1).Success? ==> result == Response(call(calls - 1).response)
    ensures calls == 0 || call(calls - 1).Failed? ==>
      result.Exhausted? && AreErrorsOf(result.errors, call, calls)
        && result.isEmptyResponseIssue == EmptySeen(call, calls)
  {
    hide EmptySeen, EmptyResponseDelay, RetryDelay;
    slept := 0;
    var errors: seq<Error> := [];
    var isEmptyResponseIssue := false;
    var effectiveMaxRetries := maxRetries;
    var attempt := 0;
    NoneSeen(call);
    while attempt < effectiveMaxRetries
      invariant 0 <= attempt && AreErrorsOf(errors, call, attempt) && AllGoOn(call, maxRetries, attempt)
      invariant attempt > 0 ==> attempt < effectiveMaxRetries && maxRetries > 0
      invariant isEmptyResponseIssue == EmptySeen(call, attempt)
      invariant effectiveMaxRetries == LimitAfter(call, maxRetries, attempt)
      invariant slept == Slept(call, attempt + 1)
      decreases Max(maxRetries, 4) - attempt
    {
      EmptySeenSnoc(call, attempt);
      if call(attempt).Success? {
        RunOf(call, maxRetries, attempt);
        return Response(call(attempt).response), attempt + 1, slept;
      }
      var failure := call(attempt).failure;
      errors := errors + [Error(attempt + 1, failure)];
      if failure.isEmptyResponse && !isEmptyResponseIssue {
        isEmptyResponseIssue := true;
        effectiveMaxRetries := Max(maxRetries, 4);
      }
      if attempt < effectiveMaxRetries - 1 && failure.IsRetryable() {
        slept := slept + if isEmptyResponseIssue then EmptyResponseDelay(attempt) else RetryDelay(attempt);
        attempt := attempt + 1;
      } else {
        RunOf(call, maxRetries, attempt);
        return Exhausted(errors, isEmptyResponseIssue), attempt + 1, slept;
      }
    }
    return Exhausted(errors, isEmptyResponseIssue), 0, slept;
  }

  lemma NoneSeen<R>(call: nat -> Outcome<R>)
    ensures !EmptySeen(call, 0)
  {
  }

  /** The outcomes determine how many calls a run makes. */
  lemma RunIsUnique<R>(call: nat -> Outcome<R>, maxRetries: int, n: nat, m: nat)
    requires IsRun(call, maxRetries, n) && IsRun(call, maxRetries, m)
    ensures n == m
  {
    assert n > 0 ==> !GoesOn(call, maxRetries, n - 1);
    assert m > 0 ==> !GoesOn(call, maxRetries, m - 1);
  }

  /** At most four calls, or as many as were asked for; no more than asked for without an empty response. */
  lemma CallsAreBounded<R>(call: nat -> Outcome<R>, maxRetries: int, n: nat)
    requires IsRun(call, maxRetries, n)
    ensures n <= Max(maxRetries, 4)
    ensures !EmptySeen(call, n) && n > 0 ==> n <= maxRetries
    ensures forall k: nat :: k + 1 < n ==> call(k).Failed? && call(k).failure.IsRetryable()
  {
    if n > 1 {
      assert GoesOn(call, maxRetries, n - 2);
      EmptySeenSnoc(call, n - 1);
    }
    forall k: nat | k + 1 < n ensures call(k).Failed? && call(k).failure.IsRetryable() {
      assert GoesOn(call, maxRetries, k);
    }
  }

  /** Call k succeeds and every call before it fails in a way that goes on. */
  ghost predicate SucceedsAt<R>(call: nat -> Outcome<R>, maxRetries: int, k: nat) {
    maxRetries > 0 && call(k).Success? && forall i: nat :: i < k ==> GoesOn(call, maxRetries, i)
  }

  lemma RunSucceedsIff<R>(call: nat -> Outcome<R>, maxRetries: int, n: nat)
    requires IsRun(call, maxRetries, n)
    ensures n > 0 && call(n - 1).Success? <==> exists k: nat :: SucceedsAt(call, maxRetries, k)
  {
    if n > 0 && call(n - 1).Success? {
      assert SucceedsAt(call, maxRetries, n - 1);
    }
    if exists k: nat :: SucceedsAt(call, maxRetries, k) {
      var k: nat :| SucceedsAt(call, maxRetries, k);
      RunIsUnique(call, maxRetries, n, k + 1);
    }
  }

  /** One of the calls up to number k ended with an empty response. */
  predicate EmptyUpTo<R>(call: nat -> Outcome<R>, k: nat) {
    exists i: nat :: i <= k && call(i).Failed? && call(i).failure.isEmptyResponse
  }

  /** How many calls may be made once call k has been: four or more behind an empty response. */
  function CallsAllowed<R>(call: nat -> Outcome<R>, maxRetries: int, k: nat): int {
    if EmptyUpTo(call, k) && maxRetries < 4 then 4 else maxRetries
  }

  /** A run goes on behind a failure that is transient or an empty response as long as calls are left, and ends with a
      success, another failure or the last call allowed. */
  lemma RunIff<R>(call: nat -> Outcome<R>, maxRetries: int, n: nat)
    ensures IsRun(call, maxRetries, n) <==>
              && (maxRetries <= 0 <==> n == 0)
              && (forall k: nat :: k + 1 < n ==>
                    call(k).Failed? && (call(k).failure.isTransient || call(k).failure.isEmptyResponse)
                      && k + 1 < CallsAllowed(call, maxRetries, k))
              && (n > 0 && call(n - 1).Failed? ==>
                    !(call(n - 1).failure.isTransient || call(n - 1).failure.isEmptyResponse)
                    || n >= CallsAllowed(call, maxRetries, n - 1))
  {
    forall k: nat
      ensures GoesOn(call, maxRetries, k) <==>
                call(k).Failed? && (call(k).failure.isTransient || call(k).failure.isEmptyResponse)
                  && k + 1 < CallsAllowed(call, maxRetries, k)
    {
      SeenUpTo(call, k);
    }
  }

  lemma SeenUpTo<R>(call: nat -> Outcome<R>, k: nat)
    ensures EmptySeen(call, k + 1) <==> EmptyUpTo(call, k)
  {
    if EmptySeen(call, k + 1) {
      var i: nat :| i < k + 1 && call(i).Failed? && call(i).failure.isEmptyResponse;
      assert i <= k;
    }
    if EmptyUpTo(call, k) {
      var i: nat :| i <= k && call(i).Failed? && call(i).failure.isEmptyResponse;
      assert i < k + 1;
    }
  }

  /** The seconds between call k and the next one: the last delay is repeated. */
  lemma SleepBetween<R>(call: nat -> Outcome<R>, k: nat)
    ensures Slept(call, 1) == 0
    ensures Slept(call, k + 2) - Slept(call, k + 1) ==
              if EmptyUpTo(call, k) then [2, 5, 10, 15][Min(k, 3)] else [1, 2, 4][Min(k, 2)]
  {
    SeenUpTo(call, k);
  }

  /** The delays between n calls that all answer with an empty response. */
  function LongestSleep(n: nat): nat {
    if n <= 1 then 0 else LongestSleep(n - 1) + EmptyResponseDelay(n - 2)
  }

  lemma {:induction false} SleepIsBounded<R>(call: nat -> Outcome<R>, n: nat)
    ensures Slept(call, n) <= LongestSleep(n)
  {
    if n > 1 {
      SleepIsBounded(call, n - 1);
    }
  }

  lemma {:induction false} LongestSleepGrows(n: nat, m: nat)
    requires n <= m
    ensures LongestSleep(n) <= LongestSleep(m)
    decreases m - n
  {
    if n < m {
      LongestSleepGrows(n, m - 1);
    }
  }

  const DEFAULT_MAX_RETRIES: int := 3

  /** With the default setting a run sleeps 17 seconds at most. */
  lemma DefaultSleepsAtMost17Seconds<R>(call: nat -> Outcome<R>, n: nat)
    requires IsRun(call, DEFAULT_MAX_RETRIES, n)
    ensures Slept(call, n) <= 17
  {
    CallsAreBounded(call, DEFAULT_MAX_RETRIES, n);
    SleepIsBounded(call, n);
    LongestSleepGrows(n, 4);
    assert LongestSleep(4) == LongestSleep(3) + 10 && LongestSleep(3) == LongestSleep(2) + 5;
  }

  /** The bound is met by a model that always answers with an empty response. */
  lemma EmptyResponsesSleep17Seconds<R>(call: nat -> Outcome<R>)
    requires forall k: nat :: call(k).Failed? && call(k).failure.isEmptyResponse
    ensures IsRun(call, DEFAULT_MAX_RETRIES, 4) && Slept(call, 4) == 17
  {
    assert forall k: nat :: k > 0 ==> EmptySeen(call, k) by {
      assert call(0).failure.isEmptyResponse;
    }
    assert Slept(call, 4) == Slept(call, 3) + 10 && Slept(call, 3) == Slept(call, 2) + 5;
  }

  // ----- Falling back along the chain -----

  /** `provider` is absent for a model the registry does not know. */
  datatype Entry = Entry(model: string, provider: Option<string>, circuitClosed: bool, hasKey: bool) {
    predicate IsUsable() {
      provider.Some? && circuitClosed && (provider.value == "ollama" || hasKey)
    }
  }

  /** Tool results and messages that ask for tools do not travel between providers. */
  function CleanMessages(messages: seq<Message>): seq<Message> {
    if messages == [] then []
    else
      (if messages[0].ToolResult? || messages[0].AsksForTools() then [] else [messages[0]])
      + CleanMessages(messages[1..])
  }

  lemma {:induction false} CleanMessagesHaveNoTools(messages: seq<Message>)
    ensures NoToolMessages(CleanMessages(messages))
    ensures NoToolMessages(messages) ==> CleanMessages(messages) == messages
  {
    if messages != [] {
      CleanMessagesHaveNoTools(messages[1..]);
      assert forall i :: 0 <= i < |messages[1..]| ==> messages[1..][i] == messages[i + 1];
      assert NoToolMessages(messages) ==> !messages[0].ToolResult? && !messages[0].AsksForTools();
    }
  }

  /** The usable positions among the first n, in order. */
  function UsableBefore(chain: seq<Entry>, n: nat): (r: seq<nat>)
    requires n <= |chain|
    ensures forall i :: 0 <= i < |r| ==> r[i] < n && chain[r[i]].IsUsable()
  {
    if n == 0 then [] else UsableBefore(chain, n - 1) + if chain[n - 1].IsUsable() then [n - 1] else []
  }

  /** The provider of the entry tried last among the first n. */
  function LastProvider(chain: seq<Entry>, n: nat): Option<string>
    requires n <= |chain|
  {
    if n == 0 then None
    else if chain[n - 1].IsUsable() then chain[n - 1].provider
    else LastProvider(chain, n - 1)
  }

  /** What entry k is sent: the messages are cleaned when the entry tried before it has another provider. */
  function SentTo(chain: seq<Entry>, messages: seq<Message>, k: nat): seq<Message>
    requires k < |chain|
  {
    var last := LastProvider(chain, k);
    if last.Some? && last != chain[k].provider then CleanMessages(messages) else messages
  }

  /** Every usable one of the first n entries raises on what it is sent. */
  ghost predicate AllRaise<R>(chain: seq<Entry>, messages: seq<Message>, generate: (nat, seq<Message>) -> Option<R>,
                              n: nat)
    requires n <= |chain|
  {
    forall k: nat :: k < n && chain[k].IsUsable() ==> generate(k, SentTo(chain, messages, k)).None?
  }

  ghost predicate AnswersAt<R>(chain: seq<Entry>, messages: seq<Message>, generate: (nat, seq<Message>) -> Option<R>,
                               k: nat, response: Option<R>)
  {
    && k < |chain| && chain[k].IsUsable()
    && response.Some? && response == generate(k, SentTo(chain, messages, k))
  }

  // ----- What is sent to whom -----

  predicate Increasing(positions: seq<nat>) {
    forall i, j :: 0 <= i < j < |positions| ==> positions[i] < positions[j]
  }

  /** The messages that are neither results nor ask for tools, as they are and in order. */
  ghost predicate IsCleaned(messages: seq<Message>, sent: seq<Message>) {
    exists positions :: Selects(positions, messages, IsPlain) && PicksOut(positions, messages, sent)
  }

  predicate PicksOut(positions: seq<nat>, messages: seq<Message>, sent: seq<Message>) {
    && |sent| == |positions|
    && forall i :: 0 <= i < |sent| ==> positions[i] < |messages| && sent[i] == messages[positions[i]]
  }

  lemma {:induction false} CleanMessagesSelect(messages: seq<Message>) returns (positions: seq<nat>)
    ensures Selects(positions, messages, IsPlain) && PicksOut(positions, messages, CleanMessages(messages))
  {
    if messages == [] {
      positions := [];
    } else {
      var rest := CleanMessagesSelect(messages[1..]);
      positions := SelectedWith(rest, IsPlain(messages[0]));
      SelectsCons(rest, messages, IsPlain);
      PicksOutCons(rest, messages, CleanMessages(messages[1..]));
    }
  }

  lemma PicksOutCons(rest: seq<nat>, messages: seq<Message>, later: seq<Message>)
    requires messages != [] && PicksOut(rest, messages[1..], later)
    ensures PicksOut(SelectedWith(rest, IsPlain(messages[0])), messages,
                     (if IsPlain(messages[0]) then [messages[0]] else []) + later)
  {
    var all := (if IsPlain(messages[0]) then [messages[0]] else []) + later;
    forall i | 0 <= i < |all|
      ensures
        var p := SelectedWith(rest, IsPlain(messages[0]));
        |p| == |all| && p[i] < |messages| && all[i] == messages[p[i]]
    {
      SelectedAt(rest, IsPlain(messages[0]), i);
    }
  }

  /** The entry is known, its circuit is closed, and it is local or has a key. */
  predicate CanBeTried(e: Entry) {
    e.provider.Some? && e.circuitClosed && (e.provider == Some("ollama") || e.hasKey)
  }

  /** The entries tried are those below n that can be, in order. */
  predicate AreTriedBelow(chain: seq<Entry>, n: nat, tried: seq<nat>) {
    && n <= |chain| && Increasing(tried)
    && (forall i :: 0 <= i < |tried| ==> tried[i] < n)
    && forall k: nat :: k < n ==> (k in tried <==> CanBeTried(chain[k]))
  }

  /** The messages are cleaned if the entry tried before has another provider. */
  ghost predicate IsSentTo(chain: seq<Entry>, messages: seq<Message>, tried: seq<nat>, i: nat, sent: seq<Message>)
    requires i < |tried| && forall k :: 0 <= k < |tried| ==> tried[k] < |chain|
  {
    if i > 0 && chain[tried[i - 1]].provider != chain[tried[i]].provider then IsCleaned(messages, sent)
    else sent == messages
  }

  ghost predicate SendsBelow(chain: seq<Entry>, messages: seq<Message>, n: nat, tried: seq<nat>,
                             sent: seq<seq<Message>>)
  {
    && AreTriedBelow(chain, n, tried) && |sent| == |tried|
    && forall i :: 0 <= i < |sent| ==> IsSentTo(chain, messages, tried, i, sent[i])
  }

  ghost predicate Raised<R>(generate: (nat, seq<Message>) -> Option<R>, tried: seq<nat>, sent: seq<seq<Message>>,
                            n: nat)
  {
    n <= |tried| == |sent| && forall i :: 0 <= i < n ==> generate(tried[i], sent[i]).None?
  }

  lemma SendsNothing(chain: seq<Entry>, messages: seq<Message>)
    ensures SendsBelow(chain, messages, 0, [], [])
  {
  }

  lemma SendsNext(chain: seq<Entry>, messages: seq<Message>, n: nat, tried: seq<nat>, sent: seq<seq<Message>>,
                  next: seq<Message>)
    requires n < |chain| && SendsBelow(chain, messages, n, tried, sent)
    ensures !CanBeTried(chain[n]) ==> SendsBelow(chain, messages, n + 1, tried, sent)
    ensures
      && CanBeTried(chain[n])
      && (if tried != [] && chain[tried[|tried| - 1]].provider != chain[n].provider then IsCleaned(messages, next)
          else next == messages)
      ==> SendsBelow(chain, messages, n + 1, tried + [n], sent + [next])
  {
    hide IsCleaned, CanBeTried;
    forall k: nat ensures k in tried + [n] <==> k in tried || k == n {
    }
    assert forall k: nat :: k in tried ==> k < n;
    forall i | 0 <= i < |tried| ensures IsSentTo(chain, messages, tried + [n], i, sent[i]) {
      assert IsSentTo(chain, messages, tried, i, sent[i]);
    }
  }

  /** The usable entries in front of the one at `index` raise, and that one answers or is the end of the chain. */
  ghost predicate IsFirstAnswer<R>(chain: seq<Entry>, messages: seq<Message>,
                                   generate: (nat, seq<Message>) -> Option<R>, response: Option<R>, index: nat,
                                   tried: seq<nat>)
  {
    && index <= |chain| && AllRaise(chain, messages, generate, index)
    && (response.Some? ==> AnswersAt(chain, messages, generate, index, response))
    && (response.Some? ==> tried == UsableBefore(chain, index) + [index])
    && (response.None? ==> index == |chain| && tried == UsableBefore(chain, index))
  }

  /** Either all that can be tried have raised, or all in front of the entry at `index`, which answered. */
  ghost predicate IsFallback<R>(chain: seq<Entry>, messages: seq<Message>, generate: (nat, seq<Message>) -> Option<R>,
                                response: Option<R>, index: nat, tried: seq<nat>, sent: seq<seq<Message>>)
  {
    if response.None? then
      SendsBelow(chain, messages, |chain|, tried, sent) && Raised(generate, tried, sent, |tried|)
    else
      && index < |chain| && SendsBelow(chain, messages, index + 1, tried, sent)
      && tried != [] && tried[|tried| - 1] == index && Raised(generate, tried, sent, |tried| - 1)
      && response == generate(index, sent[|tried| - 1])
  }

  /** The oracle `generate` answers entry k on a list of messages, or raises.  The call returns the first
      usable entry that does not raise and has tried each usable entry before it exactly once. */
  method GenerateWithFallback<R>(chain: seq<Entry>, messages: seq<Message>, generate: (nat, seq<Message>) -> Option<R>)
      returns (response: Option<R>, index: nat, tried: seq<nat>, sent: seq<seq<Message>>)
    ensures IsFirstAnswer(chain, messages, generate, response, index, tried)
    ensures IsFallback(chain, messages, generate, response, index, tried, sent)
  {
    tried, sent, index, response := [], [], 0, None;
    var lastProvider: Option<string> := None;
    hide *;
    NothingTried(chain, messages, generate);
    while index < |chain|
      invariant index <= |chain| && response.None?
      invariant HaveRaised(chain, messages, generate, index, tried, sent, lastProvider)
    {
      response, tried, sent, lastProvider :=
        TryEntry(chain, messages, generate, index, tried, sent, lastProvider);
      if response.Some? {
        return;
      }
      index := index + 1;
    }
    NoneAnswered(chain, messages, generate, tried, sent, lastProvider);
  }

  /** The body of the loop along the chain. */
  method TryEntry<R>(chain: seq<Entry>, messages: seq<Message>, generate: (nat, seq<Message>) -> Option<R>, index: nat,
                     triedBefore: seq<nat>, sentBefore: seq<seq<Message>>, last: Option<string>)
      returns (response: Option<R>, tried: seq<nat>, sent: seq<seq<Message>>, lastProvider: Option<string>)
    requires index < |chain| && HaveRaised(chain, messages, generate, index, triedBefore, sentBefore, last)
    ensures response.None? ==> HaveRaised(chain, messages, generate, index + 1, tried, sent, lastProvider)
    ensures response.Some? ==>
      && IsFirstAnswer(chain, messages, generate, response, index, tried)
      && IsFallback(chain, messages, generate, response, index, tried, sent)
  {
    hide *;
    response, tried, sent, lastProvider := None, triedBefore, sentBefore, last;
    var entry := chain[index];
    NotTried(chain, messages, generate, index, tried, sent, lastProvider);
    if entry.IsUsable() {
      var currentMessages := messages;
      if lastProvider.Some? && lastProvider != entry.provider {
        currentMessages := CleanMessages(messages);
      }
      OneMoreTried(chain, messages, generate, index, tried, sent, lastProvider, currentMessages);
      lastProvider := entry.provider;
      tried, sent := tried + [index], sent + [currentMessages];
      response := generate(index, currentMessages);
      if response.Some? {
        Answered(chain, messages, generate, index, tried, sent, response);
      }
    }
  }

  lemma NoneAnswered<R>(chain: seq<Entry>, messages: seq<Message>, generate: (nat, seq<Message>) -> Option<R>,
                        tried: seq<nat>, sent: seq<seq<Message>>, last: Option<string>)
    requires HaveRaised(chain, messages, generate, |chain|, tried, sent, last)
    ensures IsFirstAnswer(chain, messages, generate, None, |chain|, tried)
    ensures IsFallback(chain, messages, generate, None, |chain|, tried, sent)
  {
  }

  /** What the loop along the chain keeps. */
  ghost predicate HaveRaised<R>(chain: seq<Entry>, messages: seq<Message>,
                                generate: (nat, seq<Message>) -> Option<R>, n: nat, tried: seq<nat>,
                                sent: seq<seq<Message>>, last: Option<string>)
  {
    && n <= |chain| && tried == UsableBefore(chain, n) && last == LastProvider(chain, n)
    && AllRaise(chain, messages, generate, n)
    && SendsBelow(chain, messages, n, tried, sent) && Raised(generate, tried, sent, |tried|)
    && last == if tried == [] then None else chain[tried[|tried| - 1]].provider
  }

  /** Entry n was the last one tried. */
  ghost predicate HasTried<R>(chain: seq<Entry>, messages: seq<Message>, generate: (nat, seq<Message>) -> Option<R>,
                              n: nat, tried: seq<nat>, sent: seq<seq<Message>>)
  {
    && n < |chain| && tried == UsableBefore(chain, n) + [n] && chain[n].IsUsable()
    && AllRaise(chain, messages, generate, n)
    && SendsBelow(chain, messages, n + 1, tried, sent) && Raised(generate, tried, sent, |tried| - 1)
    && sent[|tried| - 1] == SentTo(chain, messages, n)
  }

  lemma NothingTried<R>(chain: seq<Entry>, messages: seq<Message>, generate: (nat, seq<Message>) -> Option<R>)
    ensures HaveRaised(chain, messages, generate, 0, [], [], None)
  {
  }

  lemma NotTried<R>(chain: seq<Entry>, messages: seq<Message>, generate: (nat, seq<Message>) -> Option<R>, n: nat,
                    tried: seq<nat>, sent: seq<seq<Message>>, last: Option<string>)
    requires n < |chain| && HaveRaised(chain, messages, generate, n, tried, sent, last)
    ensures !chain[n].IsUsable() ==> HaveRaised(chain, messages, generate, n + 1, tried, sent, last)
  {
    hide SendsBelow, AllRaise, SentTo, Raised;
    SendsNext(chain, messages, n, tried, sent, messages);
    if !chain[n].IsUsable() {
      RaisesNext(chain, messages, generate, n);
    }
  }

  lemma OneMoreTried<R>(chain: seq<Entry>, messages: seq<Message>, generate: (nat, seq<Message>) -> Option<R>, n: nat,
                        tried: seq<nat>, sent: seq<seq<Message>>, last: Option<string>, next: seq<Message>)
    requires n < |chain| && HaveRaised(chain, messages, generate, n, tried, sent, last) && chain[n].IsUsable()
    requires next == if last.Some? && last != chain[n].provider then CleanMessages(messages) else messages
    ensures HasTried(chain, messages, generate, n, tried + [n], sent + [next]) && next == SentTo(chain, messages, n)
    ensures generate(n, next).None? ==>
      HaveRaised(chain, messages, generate, n + 1, tried + [n], sent + [next], chain[n].provider)
  {
    hide SendsBelow, AllRaise, CleanMessages, IsCleaned;
    CleanMessagesAreCleaned(messages);
    TriedHaveProviders(chain, messages, n, tried, sent);
    SendsNext(chain, messages, n, tried, sent, next);
    if generate(n, next).None? {
      RaisesNext(chain, messages, generate, n);
    }
  }

  lemma TriedHaveProviders(chain: seq<Entry>, messages: seq<Message>, n: nat, tried: seq<nat>,
                           sent: seq<seq<Message>>)
    requires n <= |chain| && SendsBelow(chain, messages, n, tried, sent)
    ensures forall i :: 0 <= i < |tried| ==> tried[i] < n && chain[tried[i]].provider.Some?
    ensures |sent| == |tried|
  {
    hide IsSentTo;
    forall i | 0 <= i < |tried| ensures chain[tried[i]].provider.Some? {
      assert tried[i] in tried;
    }
  }

  lemma Answered<R>(chain: seq<Entry>, messages: seq<Message>, generate: (nat, seq<Message>) -> Option<R>, n: nat,
                    tried: seq<nat>, sent: seq<seq<Message>>, response: Option<R>)
    requires HasTried(chain, messages, generate, n, tried, sent)
    requires response.Some? && response == generate(n, SentTo(chain, messages, n))
    ensures IsFirstAnswer(chain, messages, generate, response, n, tried)
    ensures IsFallback(chain, messages, generate, response, n, tried, sent)
  {
    hide SendsBelow, AllRaise, SentTo;
  }

  lemma CleanMessagesAreCleaned(messages: seq<Message>)
    ensures IsCleaned(messages, CleanMessages(messages))
  {
    hide Selects, PicksOut;
    var positions := CleanMessagesSelect(messages);
  }

  lemma RaisesNext<R>(chain: seq<Entry>, messages: seq<Message>, generate: (nat, seq<Message>) -> Option<R>, n: nat)
    requires n < |chain| && AllRaise(chain, messages, generate, n)
    requires chain[n].IsUsable() ==> generate(n, SentTo(chain, messages, n)).None?
    ensures AllRaise(chain, messages, generate, n + 1)
  {
  }

  // ----- Building the chain -----

  datatype ChainModel = ChainModel(name: string, priority: nat)

  const SOVEREIGN_MODEL: string := "llama3.3:70b"

  function CheaperModel(provider: string): Option<string> {
    if provider == "openai" then Some("gpt-4o-mini")
    else if provider == "anthropic" then Some("claude-3.5-haiku")
    else if provider == "google" then Some("gemini-2.5-flash-lite")
    else if provider == "deepseek" then Some("deepseek-chat")
    else if provider == "perplexity" then Some("sonar")
    else None
  }

  function MidTierModel(provider: string): Option<string> {
    if provider == "anthropic" then Some("claude-sonnet-4-5-20250929")
    else if provider == "openai" then Some("gpt-4o-mini")
    else if provider == "google" then Some("gemini-2.5-flash")
    else if provider == "deepseek" then Some("deepseek-chat")
    else if provider == "perplexity" then Some("sonar")
    else None
  }

  /** The first keyed provider in order of preference, other than the current one. */
  function OtherProvider(order: seq<string>, current: string, keys: set<string>): (p: Option<string>)
    ensures p.Some? ==> p.value in order && p.value != current && p.value in keys
  {
    if order == [] then None
    else if order[0] != current && order[0] in keys then Some(order[0])
    else OtherProvider(order[1..], current, keys)
  }

  const FALLBACK_ORDER: seq<string> := ["anthropic", "openai", "google", "deepseek", "perplexity"]

  function TertiaryModel(provider: string, keys: set<string>): Option<string> {
    match OtherProvider(FALLBACK_ORDER, provider, keys)
    case Some(other) => MidTierModel(other)
    case None => None
  }

  lemma {:induction false} FirstKeyed(order: seq<string>, current: string, keys: set<string>, i: nat)
    requires i < |order| && order[i] != current && order[i] in keys
    requires forall j :: 0 <= j < i ==> order[j] == current || order[j] !in keys
    ensures OtherProvider(order, current, keys) == Some(order[i])
  {
    if i > 0 {
      assert order[0] == current || order[0] !in keys;
      FirstKeyed(order[1..], current, keys, i - 1);
    }
  }

  lemma {:induction false} NoneKeyed(order: seq<string>, current: string, keys: set<string>)
    requires forall j :: 0 <= j < |order| ==> order[j] == current || order[j] !in keys
    ensures OtherProvider(order, current, keys) == None
  {
    if order != [] {
      assert order[0] == current || order[0] !in keys;
      NoneKeyed(order[1..], current, keys);
    }
  }

  predicate Serves(p: string, current: string, keys: set<string>) {
    p != current && p in keys
  }

  /** Number i of the five is the first that has a key, leaving the current provider out. */
  predicate IsFirstOther(i: nat, current: string, keys: set<string>) {
    var order := ["anthropic", "openai", "google", "deepseek", "perplexity"];
    i < 5 && Serves(order[i], current, keys) && forall j :: 0 <= j < i ==> !Serves(order[j], current, keys)
  }

  lemma {:induction false} FirstOther(current: string, keys: set<string>, n: nat) returns (i: nat)
    requires n <= 5 && exists j :: 0 <= j < n && Serves(FALLBACK_ORDER[j], current, keys)
    ensures IsFirstOther(i, current, keys)
  {
    if exists j :: 0 <= j < n - 1 && Serves(FALLBACK_ORDER[j], current, keys) {
      i := FirstOther(current, keys, n - 1);
    } else {
      i := n - 1;
    }
  }

  /** The third model of the chain comes from the first other provider; there is none if no other one has a key. */
  lemma TertiaryIff(provider: string, keys: set<string>)
    ensures forall i: nat :: IsFirstOther(i, provider, keys) ==>
      TertiaryModel(provider, keys) == Some(["claude-sonnet-4-5-20250929", "gpt-4o-mini", "gemini-2.5-flash",
                                             "deepseek-chat", "sonar"][i])
    ensures TertiaryModel(provider, keys).Some? <==> exists i: nat :: IsFirstOther(i, provider, keys)
  {
    hide OtherProvider, Serves, MidTierModel, IsFirstOther;
    forall i: nat | IsFirstOther(i, provider, keys)
      ensures i < 5 && TertiaryModel(provider, keys) == Some(["claude-sonnet-4-5-20250929", "gpt-4o-mini",
                                                              "gemini-2.5-flash", "deepseek-chat", "sonar"][i])
    {
      FirstIsTaken(provider, keys, i);
      MidTierIs(i);
    }
    if exists j :: 0 <= j < 5 && Serves(FALLBACK_ORDER[j], provider, keys) {
      var i := FirstOther(provider, keys, 5);
    } else {
      NoneIsTaken(provider, keys);
    }
  }

  lemma FirstIsTaken(provider: string, keys: set<string>, i: nat)
    requires IsFirstOther(i, provider, keys)
    ensures i < 5 && OtherProvider(FALLBACK_ORDER, provider, keys) == Some(FALLBACK_ORDER[i])
  {
    hide OtherProvider;
    assert forall j :: 0 <= j < i ==> !Serves(FALLBACK_ORDER[j], provider, keys);
    FirstKeyed(FALLBACK_ORDER, provider, keys, i);
  }

  lemma NoneIsTaken(provider: string, keys: set<string>)
    requires forall j :: 0 <= j < 5 ==> !Serves(FALLBACK_ORDER[j], provider, keys)
    ensures OtherProvider(FALLBACK_ORDER, provider, keys) == None && forall i: nat :: !IsFirstOther(i, provider, keys)
  {
    hide OtherProvider;
    forall j | 0 <= j < |FALLBACK_ORDER| ensures FALLBACK_ORDER[j] == provider || FALLBACK_ORDER[j] !in keys {
      assert !Serves(FALLBACK_ORDER[j], provider, keys);
    }
    NoneKeyed(FALLBACK_ORDER, provider, keys);
  }

  lemma MidTierIs(i: nat)
    requires i < 5
    ensures MidTierModel(FALLBACK_ORDER[i]) ==
            Some(["claude-sonnet-4-5-20250929", "gpt-4o-mini", "gemini-2.5-flash", "deepseek-chat", "sonar"][i])
  {
  }

  /** The model with a priority, where priorities rise along the chain. */
  function ModelAt(chain: seq<ChainModel>, priority: nat): Option<string> {
    if chain == [] then None
    else if chain[0].priority == priority then Some(chain[0].name)
    else ModelAt(chain[1..], priority)
  }

  predicate PrioritiesRise(chain: seq<ChainModel>) {
    && (forall i :: 0 <= i < |chain| ==> 1 <= chain[i].priority <= 4)
    && (forall i, j :: 0 <= i < j < |chain| ==> chain[i].priority < chain[j].priority)
  }

  ghost predicate IsChainOf(chain: seq<ChainModel>, primary: string, provider: string, keys: set<string>,
                            sovereign: bool) {
    && PrioritiesRise(chain)
    && ModelAt(chain, 1) == Some(primary)
    && ModelAt(chain, 2) == (if CheaperModel(provider) == Some(primary) then None else CheaperModel(provider))
    && ModelAt(chain, 3) == TertiaryModel(provider, keys)
    && ModelAt(chain, 4) == (if sovereign then Some(SOVEREIGN_MODEL) else None)
  }

  lemma {:induction false} ModelAtSnoc(chain: seq<ChainModel>, last: ChainModel, priority: nat)
    ensures ModelAt(chain + [last], priority) ==
      if ModelAt(chain, priority).Some? then ModelAt(chain, priority)
      else if last.priority == priority then Some(last.name) else None
  {
    if chain == [] {
      assert chain + [last] == [last];
    } else {
      assert (chain + [last])[1..] == chain[1..] + [last];
      ModelAtSnoc(chain[1..], last, priority);
    }
  }

  /** The second model is the cheap one of the provider, unless that is the primary one; the last one is local. */
  lemma SecondAndLast(chain: seq<ChainModel>, primary: string, i: nat, keys: set<string>, sovereign: bool)
    requires i < 5
    requires IsChainOf(chain, primary, ["openai", "anthropic", "google", "deepseek", "perplexity"][i], keys, sovereign)
    ensures
      var cheap := ["gpt-4o-mini", "claude-3.5-haiku", "gemini-2.5-flash-lite", "deepseek-chat", "sonar"][i];
      ModelAt(chain, 2) == if primary == cheap then None else Some(cheap)
    ensures ModelAt(chain, 4) == if sovereign then Some("llama3.3:70b") else None
  {
    hide TertiaryModel, PrioritiesRise, ModelAt;
    var provider := ["openai", "anthropic", "google", "deepseek", "perplexity"][i];
    assert CheaperModel(provider) ==
      Some(["gpt-4o-mini", "claude-3.5-haiku", "gemini-2.5-flash-lite", "deepseek-chat", "sonar"][i]);
  }

  method BuildFallbackChain(primary: string, providerOf: string -> Option<string>, keys: set<string>, sovereign: bool)
      returns (chain: Option<seq<ChainModel>>)
    ensures chain.None? <==> providerOf(primary).None?
    ensures chain.Some? ==> IsChainOf(chain.value, primary, providerOf(primary).value, keys, sovereign)
  {
    hide CheaperModel, MidTierModel, OtherProvider, ModelAt;
    if providerOf(primary).None? {
      return None;
    }
    var provider := providerOf(primary).value;
    var models: seq<ChainModel> := [];
    NoModelAt();
    models := AddModel(models, primary, 1);
    var secondary := CheaperModel(provider);
    if secondary.Some? && secondary.value != primary {
      models := AddModel(models, secondary.value, 2);
    }
    var tertiary := TertiaryModel(provider, keys);
    if tertiary.Some? {
      models := AddModel(models, tertiary.value, 3);
    }
    if sovereign {
      models := AddModel(models, SOVEREIGN_MODEL, 4);
    }
    return Some(models);
  }

  lemma NoModelAt()
    ensures forall p: nat :: ModelAt([], p) == None
  {
  }

  method AddModel(models: seq<ChainModel>, name: string, priority: nat) returns (more: seq<ChainModel>)
    requires 1 <= priority <= 4 && PrioritiesRise(models) && forall m :: m in models ==> m.priority < priority
    requires ModelAt(models, priority).None?
    ensures PrioritiesRise(more) && forall m :: m in more ==> m.priority <= priority
    ensures forall p: nat :: ModelAt(more, p) == if p == priority then Some(name) else ModelAt(models, p)
  {
    more := models + [ChainModel(name, priority)];
    forall p: nat ensures ModelAt(more, p) == if p == priority then Some(name) else ModelAt(models, p) {
      ModelAtSnoc(models, ChainModel(name, priority), p);
    }
  }

  /** The registry lists the fallback models under the providers they stand for, or not at all. */
  ghost predicate RegistryAgrees(providerOf: string -> Option<string>) {
    && (forall p: string :: CheaperModel(p).Some? ==>
          p != "ollama" && (providerOf(CheaperModel(p).value) == Some(p) || providerOf(CheaperModel(p).value) == None))
    && (forall p: string :: MidTierModel(p).Some? ==> p != "ollama" && providerOf(MidTierModel(p).value) == Some(p))
    && providerOf(SOVEREIGN_MODEL) == Some("ollama")
  }

  predicate AreDistinct(chain: seq<ChainModel>) {
    forall i, j :: 0 <= i < j < |chain| ==> chain[i].name != chain[j].name
  }

  lemma {:induction false} ModelAtHolds(chain: seq<ChainModel>, i: nat)
    requires i < |chain| && PrioritiesRise(chain)
    ensures ModelAt(chain, chain[i].priority) == Some(chain[i].name)
  {
    if i > 0 {
      ModelAtHolds(chain[1..], i - 1);
    }
  }

  lemma {:induction false} ModelAtIsThere(chain: seq<ChainModel>, priority: nat) returns (i: nat)
    requires ModelAt(chain, priority).Some?
    ensures i < |chain| && chain[i] == ChainModel(ModelAt(chain, priority).value, priority)
  {
    if chain[0].priority == priority {
      i := 0;
    } else {
      i := ModelAtIsThere(chain[1..], priority);
      i := i + 1;
    }
  }

  /** No model is tried twice, except that a primary model which is the local model itself is tried again
      at the end. */
  lemma ChainIsDistinctIff(chain: seq<ChainModel>, primary: string, providerOf: string -> Option<string>,
                           keys: set<string>, sovereign: bool)
    requires RegistryAgrees(providerOf) && providerOf(primary).Some?
    requires IsChainOf(chain, primary, providerOf(primary).value, keys, sovereign)
    ensures AreDistinct(chain) <==> !(sovereign && primary == SOVEREIGN_MODEL)
  {
    hide CheaperModel, MidTierModel, OtherProvider, ModelAt;
    if sovereign && primary == SOVEREIGN_MODEL {
      var i := ModelAtIsThere(chain, 1);
      var j := ModelAtIsThere(chain, 4);
      assert chain[i].name == chain[j].name;
      assert i < j || j < i;
    } else {
      forall i, j | 0 <= i < j < |chain| ensures chain[i].name != chain[j].name {
        ModelAtHolds(chain, i);
        ModelAtHolds(chain, j);
        assert chain[i].priority < chain[j].priority;
      }
    }
  }
}
