# Qubes: verified models of the assistant's core algorithms

Qubes is a desktop assistant whose agents ("qubes") talk to many language models, call tools, remember a chain of
blocks, speak and listen. This project models the self-contained algorithms and state machines behind that and proves
what they promise, for all inputs and all runs. Each module belongs to one component of the Python program:

| module | component |
|---|---|
| `EditDistance` | nearest registered model name for a misspelt request |
| `ToolCallStripping` | finding tool calls in a model's text and cutting them out again |
| `Conversation`, `ToolLoop` | the tool-calling loop with its loop detectors, and the contexts it builds |
| `ToolInjection` | rewriting such a context for a model without native tool calls |
| `MemoryWindow` | choosing recent blocks, with summaries standing in for the blocks they cover |
| `Fallback`, `Revolver` | retrying one model, falling back along a chain, rotating providers |
| `ChunkPacking`, `SpeechChunking`, `QwenChunking`, `SentenceStreaming` | cutting text for speech synthesis |
| `VoiceActivity` | recording speech with a pre-buffer |
| `AudioCache` | the size-limited cache of synthesised audio |
| `ArgumentParser`, `SidecarCache` | the sidecar process: request arguments, bridges and derived keys |
| `ServerHealth`, `ServerRuns` | start, stop, restart and health checks of the local speech server as interleaved tasks; what they do step by step |
| `Prelude`, `Sorting`, `Text` | shared notions, a whole made of its parts; a stable sort; whitespace, stripping and words of strings |

Where the program updates variables, fields or lists in place, the model is a method or a class with the same loop or
fields. It is tied to a function of its inputs or of the old state, and the lemmas are about that function. Beside that,
the results are described without the function: by positions in the input, by the parts that a text is made of, by the
answers of the oracles. Calls that leave the program are parameters: the model (`generate`, `call`), the tools
(`execute`), the JSON decoder (`decode`), the hash and the key derivation, regular-expression matches, the clock (`now`,
`Tick`), random choices (`pick`).

`dafny verify dfyconfig.toml` checks the project.

## What the code does not do

Some properties that one would expect hold only under a condition. Each is proved as an equivalence, or with an input
that shows the failure.

- **Long sentences in speech chunks.** The branch for a sentence longer than the limit replaces the pending chunk
  (audio/audio_manager.py:134-146), so text is lost, or a chunk is over-long. The chunks are the text, within the limit,
  if and only if the text or every sentence of it fits (`SpeechChunking.ChunkingIsExactIffSentencesFit`). The words are
  kept if and only if the text fits, or no over-long sentence meets a pending chunk with words and no sentence is appended
  to the stripped rest of one (`SpeechChunking.ChunkingKeepsWordsIff`); any sentence in front of one over-long word is lost
  (`SpeechChunking.SentenceBeforeLongWordIsLost`). The sibling in
  audio/qwen_tts.py closes the pending chunk first and keeps every word; there only a blank text beyond the limit comes
  back uncut (`QwenChunking.ChunksAreGoodIff`).
- **Changing the model in the middle of a batch.** After a successful `switch_model` the context is cleaned of tool
  messages, and results of later calls in the batch are then appended with nothing that asks for them
  (ai/reasoner.py:860-957). A batch keeps a context well-formed if and only if no call is executed behind its last
  change of model (`ToolLoop.BatchKeepsWellFormed`); for a model without native tools such results vanish or are shown
  as results of the next exchange (`ToolInjection.OrphansVanish`, `ToolInjection.OrphansJoinNextExchange`).
- **A memory window of size 0** is not empty if there are summaries, because `[-0:]` keeps everything
  (ai/reasoner.py:4089, `MemoryWindow.GetRecentPermanentBlocks`). Both callers ask for a positive size only
  (ai/reasoner.py:1791, ai/reasoner.py:2175), so the program does not run into this.
- **A pre-buffer longer than the silence that ends a recording** keeps chunks from before that recording: the next one
  can then have a hole (`VoiceActivity.RecordingsAreContiguousIff`, `VoiceActivity.SecondRecording`).
- **Words across tokens.** No visible character is lost between calls of the sentence extractor, but words can change in
  two ways: a boundary is accepted at the very end of the buffer (`$` in audio/audio_manager.py:167), so that "version 3."
  followed by "5 now" would be cut into two words, and a forced split strips the remainder
  (audio/audio_manager.py:238-240), so that its last word is glued to the next token. For non-empty tokens the words are
  kept if and only if neither happens in front of a token that starts with a visible character
  (`SentenceStreaming.FeedKeepsWordsIff`). The program's own tokens are cut by `\S+\s*` (ai/reasoner.py:219), so all but
  the last end with whitespace: they never take the first way, and keep the words if and only if no call but the last
  strips a remainder's end (`SentenceStreaming.SpacedTokensKeepWordsIff`). The second way they do take:
  `SentenceStreaming.RunOnIsGlued` is such a stream.
- **The fallback chain tries a model twice** if and only if local fallback is on and the primary model is the local model
  (`Fallback.ChainIsDistinctIff`). The cheaper model for Anthropic, `claude-3.5-haiku` (ai/fallback.py:151), is not in
  the registry, so that entry is always skipped.
- **Audio cache keys** are made of text, provider, voice id and speed only (audio/cache.py:59-62). Voices that differ in
  language, pitch or any other of the eight remaining fields (audio/tts_engine.py:24-50) share all their keys
  (`AudioCache.KeyTextsAreEqualIff`, `AudioCache.LanguagesShareKeys`). A request shares its key text with no other
  bar-free request if and only if provider, voice id and speed hold no bar (`AudioCache.KeyIsUnambiguousIff`).
- **A wav file stored for a key that still has an mp3 file** is shadowed by it unless storing evicts that mp3 file
  (`AudioCache.Cache.Set`, `AudioCache.WavIsShadowed`).
- **A manual stop of the speech server** is meant to prevent an automatic restart (audio/wsl2_server_manager.py:472).
  After any run the server is down and stays down, whatever happens but a start by force, a restart or a cancellation from
  outside, if and only if it is not ready, a manual stop is in force, the health loops sleep or are cancelled, and whatever
  else is on its way to a start waits for another health loop that is not cancelled; otherwise answers to what is under way,
  stops and ordinary starts alone can make it ready (`ServerHealth.ManualStopLastsIff`). A stop that arrives in the pause of
  an automatic restart returns and is then undone, and a run from the start leads there
  (`ServerHealth.RestartPauseIsReached`, `ServerHealth.StopInRestartPauseIsUndone`).
- **A restart can hang for ever.** If one is asked for while a health loop waits for itself in its own restart, it waits for
  that loop, which has swallowed the cancellation and goes on (`ServerHealth.RestartCanHang`).

## Model

| member | source | states |
|---|---|---|
| EditDistance.Levenshtein | ai/model_registry.py:306-321 | The two-row program with its argument swap computes the edit distance, for all strings |
| EditDistance.TableCell | ai/model_registry.py:313-319 | A cell of the table is the least of its three neighbours' costs |
| EditDistance.DistanceIsSymmetric | ai/model_registry.py:307-308 | Swapping the arguments does not change the result |
| EditDistance.TriangleInequality | ai/model_registry.py:306-321 | The distance is a metric: no detour over a third string is shorter |
| EditDistance.NoShorterChain | ai/model_registry.py:306-321 | No chain of insertions, deletions and replacements at any positions is shorter than the distance |
| EditDistance.SomeChain | ai/model_registry.py:306-321 | Some chain of single-character rewrites is as short as the distance |
| EditDistance.DistanceIsFewestRewrites | ai/model_registry.py:306-321 | The distance is the minimum over all chains of rewrites |
| EditDistance.FindNearest | ai/model_registry.py:323-340 | The answer is the first registered name of least distance below 4; none if all are farther; an empty name, which the registry does not hold, would count as none |
| EditDistance.OneFirstLeast | ai/model_registry.py:326-330 | There is exactly one first nearest name, so the search is determined |
| EditDistance.TooFarMeansFourRewrites | ai/model_registry.py:323-330 | All names are too far if and only if each needs more than three rewrites |
| ToolCallStripping.SkipSpaceLoop | ai/prompt_tools.py:448-449 | The cursor stops at the first character that is not whitespace |
| ToolCallStripping.ParseWithJsonDecoder | ai/prompt_tools.py:430-489 | There is one call for each opening tag behind which, after whitespace, a dictionary with a non-empty name decodes, with that name and span, in the order of the tags, and no other call |
| ToolCallStripping.CallPerOpener | ai/prompt_tools.py:443-472 | The opening tags that the calls stand behind: increasing, and all that a call can be read behind |
| ToolCallStripping.ReadsOne | ai/prompt_tools.py:447-469 | Behind one tag at most one call can be read |
| ToolCallStripping.ParseBareJson | ai/prompt_tools.py:564-598 | The scan ends. There is one call for each tried brace at which a dictionary with a name and arguments decodes, in order; a brace is tried if and only if no value decoded at an earlier tried one holds it |
| ToolCallStripping.TriedIsUnique | ai/prompt_tools.py:564-598 | That rule determines which braces are tried |
| ToolCallStripping.ScanGoesForward | ai/prompt_tools.py:564-598 | Attempts go strictly forward and decoded spans are disjoint |
| ToolCallStripping.ScanTriesEveryBrace | ai/prompt_tools.py:739-755 | An opening brace is tried if and only if no earlier decoded value contains it |
| ToolCallStripping.CollectTagRanges | ai/prompt_tools.py:663-694 | One range per opening tag: the tag alone, or up to the object's end and a closing tag within 20 characters |
| ToolCallStripping.EndsWithCloserIff | ai/prompt_tools.py:682-688 | The range goes on to the end of a closing tag, in any case, if and only if one follows whitespace and ends within 20 characters |
| ToolCallStripping.TagTextIs | ai/prompt_tools.py:663-694 | What goes for one tag: the tag alone if no object decodes behind it, else everything up to the object and its closing tag |
| ToolCallStripping.AddUncovered | ai/prompt_tools.py:696-701 | A match is added, in order, if and only if it starts neither inside a range there was before nor inside an added match in front of it; nothing is removed |
| ToolCallStripping.CollectEmbedded | ai/prompt_tools.py:737-755 | Exactly the embedded calls are collected, with backticks around them |
| ToolCallStripping.EmbeddedTextIs | ai/prompt_tools.py:737-755 | An embedded range is the span of a tried tool call with a backtick directly in front of it and one directly behind it, where there are such |
| ToolCallStripping.CollectRanges | ai/prompt_tools.py:658-755 | All ranges that must go are collected, in bounds, and no others: for each kind of match its rule, in the order in which coverage is decided |
| ToolCallStripping.MergeRanges | ai/prompt_tools.py:757-764 | For any overlapping input: sorted, pairwise separated by gaps, same union |
| ToolCallStripping.AbsorbKeepsSeparated | ai/prompt_tools.py:760-764 | Widening or appending keeps the merged list separated and in bounds |
| ToolCallStripping.AbsorbAddsToUnion | ai/prompt_tools.py:760-764 | One step adds exactly the next range's positions to the union |
| ToolCallStripping.RemoveRanges | ai/prompt_tools.py:757-776 | The result is the characters at positions in none of the given ranges, in order |
| ToolCallStripping.KeptDependsOnUnion | ai/prompt_tools.py:757-776 | Which text is kept depends only on the set of positions covered |
| ToolCallStripping.GapIsKept | ai/prompt_tools.py:766-774 | Between the end of one merged range and the start of the next everything is kept |
| ToolCallStripping.ExtractContent | ai/prompt_tools.py:646-776 | Before whitespace cleanup the text is what lies outside the collected ranges |
| ToolCallStripping.TaggedCallsAreRemoved | ai/prompt_tools.py:443-489 | Whatever is parsed as a tagged call is removed from the text |
| ToolCallStripping.BareCallsAreRemoved | ai/prompt_tools.py:737-755 | In a text that the bare parser's two preparing substitutions leave as it is, whatever is parsed as a bare call is removed |
| Conversation.ExchangeIsWellFormed | ai/reasoner.py:856-880 | A message that asks for tools, followed by its results in call order, is well-formed |
| Conversation.WellFormedAppend | ai/reasoner.py:856-880 | Well-formed conversations may be put after one another |
| Conversation.NoToolMessagesIsWellFormed | ai/reasoner.py:925-957 | A conversation without tool messages is well-formed |
| Conversation.OrphanIsIllFormed | ai/reasoner.py:875-880 | A result that nothing asked for makes any conversation ill-formed |
| ToolLoop.Reasoner.DetectLoop | ai/reasoner.py:730-778 | A loop is reported if and only if the run with this batch repeats a non-exempt call or exceeds a tool's limit |
| ToolLoop.Reasoner.ExecuteBatch | ai/reasoner.py:839-985 | Every call of the batch is executed once, in order. Without a change of model the context is the old one, the asking message and all results; else it is the old one without results and asking messages, in order and with their roles, user and system texts rewritten, followed by the results of the calls behind the last change |
| ToolLoop.BatchContext | ai/reasoner.py:839-985 | The same of the function behind it, for any number of changes in one batch |
| ToolLoop.CleanContextCarries | ai/reasoner.py:925-957 | Cleaning keeps exactly the messages that are neither results nor ask for tools, by their positions |
| ToolLoop.KeptContent | ai/reasoner.py:840-854 | The text of a response is kept unless it asks for another model |
| ToolLoop.Reasoner.ProcessInput | ai/reasoner.py:541-1119 | Over a whole run update_system_state and get_system_state are executed at most 25 times each, search_memory 15 times and any other tool 8 times, and only get_system_state and search_memory twice with the same parameters; a batch that trips a detector executes nothing; how each run ends; each context sent is the one before it with one batch behind it; which ones are well-formed |
| ToolLoop.SignatureIsInjective | ai/reasoner.py:733-736 | For names without a colon equal signatures are equal tools with equal parameters |
| ToolLoop.CountIsBounded | ai/reasoner.py:768-778 | In a safe run every tool, called or not, stays within its limit |
| ToolLoop.SafeIff | ai/reasoner.py:744-778 | The two detectors in numbers and names: what counts as a repetition and as too often |
| ToolLoop.SafePrefix | ai/reasoner.py:758-778 | What was safe with a batch was safe without it |
| ToolLoop.CleanContextHasNoTools | ai/reasoner.py:925-957 | A cleaned context has no results and no messages that ask for tools |
| ToolLoop.BatchKeepsWellFormed | ai/reasoner.py:839-980 | A batch keeps a context well-formed if and only if no call follows its last change of model |
| ToolLoop.OrphansStay | ai/reasoner.py:868-880 | Results appended behind a change of model leave the context ill-formed |
| ToolLoop.NextContext | ai/reasoner.py:547-985 | From one model call to the next, the context stays well-formed exactly if the batch between them changes the model last |
| ToolInjection.InjectToolsIntoMessages | ai/prompt_tools.py:208-330 | Without tools the messages come back as they are. A well-formed conversation comes back with every message that is not a result, in order: an exchange as its text, the header and one line for each result with its name and content in call order; the first system message with the instructions; the prompt to go on behind a final result |
| ToolInjection.WellFormedIsRewritten | ai/prompt_tools.py:253-330 | The same of the function behind it, with the texts written out |
| ToolInjection.ExchangeIsShown | ai/prompt_tools.py:257-261 | The content of a rendered exchange, part by part, for any results |
| ToolInjection.BaseText | ai/prompt_tools.py:287-293 | A content with a visible character is kept as it is; else a sentence names every tool asked for |
| ToolInjection.RenderedOutline | ai/prompt_tools.py:271-316 | Which message is shown as what, by their positions |
| Prelude.OneWhole | ai/prompt_tools.py:259-261 | The parts of a content determine it |
| ToolInjection.RewriteMessages | ai/prompt_tools.py:246-330 | The loop over the messages is the fold whose properties follow |
| ToolInjection.InjectRendersWellFormed | ai/prompt_tools.py:246-330 | For every well-formed conversation the rendered messages stand between one system message, where there was none, and the closing prompt, where the last message was a result |
| ToolInjection.InstructionsAreAddedOnce | ai/prompt_tools.py:273-277 | The instructions go behind the first system message and nowhere else |
| ToolInjection.NoToolMessagesEmitted | ai/prompt_tools.py:271-330 | For any input no message of the tool role and none that asks for tools is emitted |
| ToolInjection.StepsRender | ai/prompt_tools.py:271-316 | From any state of the loop without orphans the rest of the messages is rendered behind what is there |
| ToolInjection.StepExchange | ai/prompt_tools.py:253-305 | One exchange becomes one message that shows all its results, line by line, whatever came before |
| ToolInjection.OrphansVanish | ai/prompt_tools.py:253-269 | Results that nothing asked for are dropped at the end of a conversation |
| ToolInjection.OrphansJoinNextExchange | ai/prompt_tools.py:253-305 | In front of an exchange they are shown, line by line, in front of the results of that exchange |
| MemoryWindow.GetRecentPermanentBlocks | ai/reasoner.py:3962-4102 | The window holds, in chain order, the newest `limit` of the blocks that count, that is summaries and blocks other than genesis that no summary covers, and what it leaves out is older; if and only if the limit is positive or there are no summaries |
| MemoryWindow.NewestAreWindow | ai/reasoner.py:4082-4089 | The same of the function behind it |
| MemoryWindow.CollectSummaries | ai/reasoner.py:3991-4018 | All summaries, oldest first, and exactly the block numbers they cover |
| MemoryWindow.ScanUncovered | ai/reasoner.py:4026-4080 | The uncovered blocks down to where the scan stops; it stops at the first block or with enough of them |
| MemoryWindow.SummariesAndUncoveredAreMemorable | ai/reasoner.py:4082-4083 | Summaries and uncovered blocks together are the memorable ones, each once |
| MemoryWindow.SortedSelection | ai/reasoner.py:4082-4086 | Sorting what was found gives all older summaries and then everything memorable, in chain order |
| MemoryWindow.EarlyStopIsHarmless | ai/reasoner.py:4038-4040 | Stopping the scan early does not change the window |
| MemoryWindow.UncutWindowRemembersAll | ai/reasoner.py:3966-3978 | If nothing is cut off, every block but the genesis block is in the window or covered by a summary in it |
| MemoryWindow.WindowIsNewest | ai/reasoner.py:4088-4089 | What is cut off is older than everything in the window, which is then full |
| Fallback.GeneratePrimaryWithRetry | ai/fallback.py:383-567 | The outcome, the calls, the recorded errors and the seconds slept are those of the one run that the outcomes determine |
| Fallback.RetryLoop | ai/fallback.py:436-535 | The loop ends although its limit can rise, after exactly the calls of a run |
| Fallback.RunIsUnique | ai/fallback.py:445-535 | The outcomes of the calls determine how many are made |
| Fallback.RunIff | ai/fallback.py:483-535 | A run goes on behind a transient error or an empty response while calls are left, and ends with a success, another error or the last call allowed; four calls or more are allowed behind an empty response |
| Fallback.SleepBetween | ai/fallback.py:436-439 | Between two calls it sleeps 1, 2, 4 seconds, or 2, 5, 10, 15 behind an empty response, the last one repeated |
| Fallback.RunSucceedsIff | ai/fallback.py:445-535 | The run succeeds if and only if some call succeeds and all before it fail in a way that goes on |
| Fallback.CallsAreBounded | ai/fallback.py:436-535 | At most max(max_retries, 4) calls, at most max_retries without an empty response; all but the last fail with a retryable error |
| Fallback.SleepIsBounded | ai/fallback.py:436-439 | No run sleeps longer than one that only gets empty responses |
| Fallback.DefaultSleepsAtMost17Seconds | ai/fallback.py:389-389 | The default setting sleeps at most 17 seconds |
| Fallback.EmptyResponsesSleep17Seconds | ai/fallback.py:438-438 | That bound is reached by a model that always answers with an empty response |
| Fallback.GenerateWithFallback | ai/fallback.py:230-381 | The entries tried are, in order, those that are known, not cut off and local or with a key. Each is sent the messages, cleaned if the one tried before has another provider. The first that answers is returned; failure only if all raise |
| Fallback.CleanMessagesHaveNoTools | ai/fallback.py:274-287 | Messages for another provider carry no tool messages; messages without tools stay as they are |
| Fallback.CleanMessagesAreCleaned | ai/fallback.py:274-287 | Cleaning keeps exactly the messages that are neither results nor ask for tools, in order and unchanged |
| Fallback.BuildFallbackChain | ai/fallback.py:77-202 | Primary, cheaper, other provider's and local model in this order, each under its condition; unknown primary models are refused |
| Fallback.SecondAndLast | ai/fallback.py:139-202 | The second and the last model of the chain, by name, for each provider with a cheaper model |
| Fallback.TertiaryIff | ai/fallback.py:158-191 | The third model is that of the first of anthropic, openai, google, deepseek, perplexity with a key, the current provider left out; there is none if and only if none of them has a key |
| Fallback.ChainIsDistinctIff | ai/fallback.py:98-137 | No model is in the chain twice, if and only if not (local fallback on and the primary model is the local one) |
| Revolver.GenerateWithRevolverRetry | ai/reasoner.py:3430-3656 | The primary answers, or else the first that answers of the candidates, in order, whose model is neither the primary nor that of an earlier candidate and whose provider is local or has a key; each before it is called once; failure only if all of them fail |
| Revolver.TryCandidates | ai/reasoner.py:3546-3645 | Exactly the eligible candidates before the one that answers have been called, in order |
| Revolver.CallsAreDistinct | ai/reasoner.py:3546-3555 | No model is called twice in one retry |
| Revolver.DistinctOffersAreAllTried | ai/reasoner.py:3546-3656 | If no model is offered twice, the retry fails if and only if every candidate with a key does |
| Revolver.ListedOffersAreDistinct | ai/reasoner.py:3220-3342 | One offer per provider, under the registry's provider of the model, means that no model is offered twice |
| Revolver.ApplyRevolverMode | ai/reasoner.py:3344-3428 | A model is selected if and only if the mode is on and there are offers; its provider is the last one if and only if no other is offered |
| Revolver.SelectableIff | ai/reasoner.py:3398-3408 | Every offer of another provider can come next, and one of the same provider only if there is no other |
| ChunkPacking.CombineSentences | audio/audio_manager.py:120-131 | Each text is joined with the separator behind it; the last one stands alone |
| ChunkPacking.ConcatOfSentences | audio/audio_manager.py:120-131 | The sentences put together are the text |
| ChunkPacking.SentencesEndWithSpace | audio/qwen_tts.py:609-618 | Every sentence but the last ends with whitespace, so words do not cross sentences |
| ChunkPacking.PackWords | audio/audio_manager.py:136-144 | A word of an over-long sentence stands in the chunk of the word before it if and only if it still fits there |
| SpeechChunking.ChunkTextForTts | audio/audio_manager.py:101-159 | The loop is the greedy packing whose properties follow |
| SpeechChunking.FittingTextIsCutOptimally | audio/audio_manager.py:101-159 | If all sentences fit: the chunks put together are the text, each is within the limit, and no other split at sentences has fewer |
| SpeechChunking.GreedyStaysAhead | audio/audio_manager.py:147-153 | After every sentence, any grouping so far has at least as many groups, and in a tie a last group at least as long |
| SpeechChunking.FittingSentencesArePartitioned | audio/audio_manager.py:147-153 | After every sentence the chunks and the pending one are the text so far, within the limit |
| SpeechChunking.OverlongSentenceDamages | audio/audio_manager.py:134-146 | A sentence beyond the limit always loses a character or leaves an over-long chunk |
| SpeechChunking.DamageIsPermanent | audio/audio_manager.py:133-153 | Later sentences never repair that |
| SpeechChunking.ChunkingIsExactIffSentencesFit | audio/audio_manager.py:101-159 | Text and limit are kept if and only if the text or each of its sentences fits |
| SpeechChunking.ChunkingKeepsWordsIff | audio/audio_manager.py:101-159 | The words are kept if and only if the text fits, or no over-long sentence replaces a chunk with words and none is glued to what is left of one |
| SpeechChunking.PackingKeepsOrLoses | audio/audio_manager.py:133-153 | After every sentence the words packed are those read, or some are missing for good |
| SpeechChunking.SentenceBeforeLongWordIsLost | audio/audio_manager.py:134-146 | Any sentence that fits, in front of one over-long word: only the word is left |
| QwenChunking.ChunkText | audio/qwen_tts.py:601-643 | The loop is the greedy packing whose properties follow |
| QwenChunking.ChunksKeepWords | audio/qwen_tts.py:601-643 | For every text the words of the chunks in order are the words of the text |
| QwenChunking.PackingKeepsWords | audio/qwen_tts.py:620-638 | After every sentence the words packed are those read |
| QwenChunking.PackingIsGood | audio/qwen_tts.py:620-638 | After every sentence each chunk is within the limit or one longer word |
| QwenChunking.ChunksAreFilled | audio/qwen_tts.py:601-643 | The chunks are consecutive groups of the uncut pieces, sentences that fit and words of those that do not; the first piece of a chunk would not have fitted into the chunk in front of it, unless an over-long sentence starts with it |
| QwenChunking.FittingTextNeedsNoFewer | audio/qwen_tts.py:632-638 | If all sentences fit, no split at sentences within the limit has fewer chunks |
| QwenChunking.ChunksAreGoodIff | audio/qwen_tts.py:601-643 | The sizes are right if and only if the text fits or is not blank |
| SentenceStreaming.ExtractCompleteSentences | audio/audio_manager.py:194-242 | The sentences are cut one after the other at boundaries that meet the four conditions, until one of the four reasons to stop holds; what is left is split once, at the last mark in its first 500 characters, if it is longer and that mark is behind the first 20 |
| SentenceStreaming.NextCut | audio/audio_manager.py:204-226 | An accepted boundary lies inside the buffer behind at least 20 characters; what it is accepted for is stated by TakenIff |
| SentenceStreaming.TakenIff | audio/audio_manager.py:204-226 | A sentence is taken if and only if a boundary is found, the stripped text up to it has at least 20 characters, no URL reaches it and the text does not end with an abbreviation; otherwise one of the four reasons to stop holds |
| SentenceStreaming.TakenAreSentences | audio/audio_manager.py:204-226 | No sentence that a call cuts at a boundary is shorter than 20 characters or ends with an abbreviation, and no URL reaches its end |
| SentenceStreaming.TakenIsUnique | audio/audio_manager.py:202-226 | These conditions determine all sentences of a call that are cut at boundaries |
| SentenceStreaming.SplitIff | audio/audio_manager.py:228-240 | The forced split is at the last of the marks comma, semicolon, dash and colon in the first 500 characters |
| SentenceStreaming.ExtractKeepsWords | audio/audio_manager.py:194-242 | The words of the buffer are those of the sentences and then those of the remainder |
| SentenceStreaming.ExtractKeepsNonBlank | audio/audio_manager.py:194-242 | So are its visible characters |
| SentenceStreaming.BoundarySentencesAreLong | audio/audio_manager.py:210-213 | A sentence cut at a boundary has at least 20 characters, and no accepted boundary is left |
| SentenceStreaming.SplitPointIsInside | audio/audio_manager.py:231-240 | A forced split leaves text on both sides and cuts no word |
| SentenceStreaming.FeedTokens | audio/audio_manager.py:194-242 | Over any stream of tokens no visible character is lost, repeated or moved |
| SentenceStreaming.FeedKeepsWordsIff | audio/audio_manager.py:194-242 | Over any stream of non-empty tokens the words of sentences and buffer are those of the stream, if and only if no token that starts visibly follows a call that cuts at its buffer's end or strips a remainder's end |
| SentenceStreaming.FeedKeepsWordsIffSeams | audio/audio_manager.py:194-242 | For any tokens: if and only if, in front of each token that starts visibly, buffer and stream agree on whether a word is in progress |
| SentenceStreaming.FedWordsAreSameOrApart | audio/audio_manager.py:194-242 | Once a seam is broken no later call repairs the words |
| SentenceStreaming.RemainderEnds | audio/audio_manager.py:204-242 | A call leaves a buffer that ends as it was given, unless it cuts at the very end or strips the remainder's end |
| SentenceStreaming.SpacedTokensKeepWordsIff | ai/reasoner.py:219-224 | For tokens as the program cuts them, words are kept if and only if no call but the last strips a remainder's end |
| SentenceStreaming.RunOnIsGlued | audio/audio_manager.py:230-240 | Such tokens, without any boundary, that a forced split glues together |
| SentenceStreaming.GoingOnIsCut | audio/audio_manager.py:167-167 | For the function by itself: whatever is cut at the end of its buffer and goes on without a space changes the words |
| SentenceStreaming.VersionNumberIsCut | audio/audio_manager.py:167-167 | A version number in two tokens would be such an input; the program's own tokens are not cut like this |
| SentenceStreaming.StripBeforeTokenKeepsWordsIff | audio/audio_manager.py:238-240 | The strip in a forced split by itself: it keeps the words if and only if the next token does not start one right behind stripped space |
| VoiceActivity.VADBuffer.constructor | audio/recorder.py:333-355 | A new buffer is empty |
| VoiceActivity.VADBuffer.AddChunk | audio/recorder.py:362-396 | The whole new state and when completion is reported |
| VoiceActivity.VADBuffer.GetAudio | audio/recorder.py:398-405 | The bytes are those of the recorded chunks, one chunk behind the other |
| VoiceActivity.VADBuffer.Reset | audio/recorder.py:407-411 | The recording and the counter are cleared, the pre-buffer is kept |
| VoiceActivity.FreshRecordingIsContiguous | audio/recorder.py:362-396 | The recording is the stream from the pre-buffer in front of the first speech on; the counter is the trailing silence |
| VoiceActivity.CompletionIsLongSilence | audio/recorder.py:384-387 | Completion is reported exactly when more than `max_silence_chunks` silent chunks follow speech |
| VoiceActivity.SessionIsSynchronised | audio/recorder.py:362-411 | Over any number of recordings, with a suitable pre-buffer, the recording is always the end of the stream |
| VoiceActivity.RecordingsAreContiguousIff | audio/recorder.py:349-411 | Every recording of every session is contiguous if and only if the pre-buffer is at most `max_silence_chunks + 1` long |
| VoiceActivity.SecondRecording | audio/recorder.py:349-411 | A longer pre-buffer: a stream whose second recording has a hole |
| AudioCache.KeyTextsAreEqualIff | audio/cache.py:59-62 | Without bars in provider, voice id and speed, key texts are equal if and only if text, provider, voice id and speed are, whatever the text and the other fields hold |
| AudioCache.LanguagesShareKeys | audio/cache.py:59-62 | The same voice in two languages: different requests with one key |
| AudioCache.BarFreeReading | audio/cache.py:59-62 | Every key text is also that of a request without bars in its fields |
| AudioCache.KeyIsUnambiguousIff | audio/cache.py:59-62 | A request shares its key text with no other bar-free request if and only if it has no bar in its fields itself |
| AudioCache.BarInProviderCollides | audio/cache.py:59-62 | With a bar in the provider they can collide |
| AudioCache.Cache.Get | audio/cache.py:64-85 | The mp3 file of the key, or else its wav file, or nothing |
| AudioCache.Cache.Set | audio/cache.py:87-122 | The new store; a strictly newest file within the limit survives, and is hit by the next lookup if and only if it is an mp3 file, or the key had none before, or that one is evicted |
| AudioCache.WavIsShadowed | audio/cache.py:78-83 | A wav file stored behind an older mp3 file of its key, where both fit, is not found |
| AudioCache.Cache.EnforceSizeLimit | audio/cache.py:124-151 | Exactly the evicted prefix of the files, oldest first, is removed |
| AudioCache.EvictionIsShortest | audio/cache.py:137-141 | It is the shortest prefix whose removal brings the total within the limit |
| AudioCache.SizesAddUp | audio/cache.py:127-135 | The total counts each file once with its size |
| AudioCache.LastSurvives | audio/cache.py:137-141 | A newest file within the limit is never evicted |
| AudioCache.NewestSurvives | audio/cache.py:124-151 | So a file newer than all others survives the eviction that its own storing causes |
| ArgumentParser.ParseArgs | sidecar_server.py:555-577 | A token with two dashes in front is a flag, named without them and with underscores; a token without them behind a flag is its value; all others are the positionals, in order; the last flag of a name counts |
| ArgumentParser.ItemsUseEachTokenOnce | sidecar_server.py:563-576 | On any input every token is read exactly once, in order |
| ArgumentParser.ItemsOfPrinted | sidecar_server.py:555-577 | Printed positionals and flags are read as what they are |
| ArgumentParser.ParsingUndoesPrinting | sidecar_server.py:555-577 | Parsing printed positionals and flags returns them |
| SidecarCache.SidecarState.constructor | sidecar_server.py:256-260 | A new state is empty and satisfies the invariant |
| SidecarCache.SidecarState.GetBridge | sidecar_server.py:263-294 | After a password the bridge holds its key and the cache that key with its hash; the 20 qubes loaded last remain; other users are untouched |
| SidecarCache.SidecarState.UsePassword | sidecar_server.py:273-286 | A new, changed or known password: bridge and cache end with its key |
| SidecarCache.SidecarState.InvalidateQube | sidecar_server.py:296-299 | That qube is gone from that user's bridge, and nothing else |
| SidecarCache.WithoutKeepsOrder | sidecar_server.py:296-299 | The other qubes stay in the order they were loaded in |
| SidecarCache.SidecarState.InvalidateUser | sidecar_server.py:301-310 | The user's bridge and key are gone and the watchers with that user's prefix |
| SidecarCache.WatcherIsDroppedIff | sidecar_server.py:306-307 | User ids hold no colon, so a watcher has that prefix if and only if it is that user's |
| ServerHealth.RunsAreSafe | audio/wsl2_server_manager.py:221-629 | In every interleaving: at most three automatic restarts, each after two failed health checks since its loop's last good probe and 60 seconds after its previous restart; ready only after a good probe; the counter is the number of restarts |
| ServerHealth.RunKeeps | audio/wsl2_server_manager.py:221-629 | Every action keeps the invariant that ties each task's counters to what happened |
| ServerHealth.StepIsRecorded | audio/wsl2_server_manager.py:244-407 | A start becomes ready only after a good probe of its own and loses no failed health check before it succeeds; what else its steps do is stated by ServerRuns |
| ServerHealth.AutoRestartKeeps | audio/wsl2_server_manager.py:588-622 | An automatic restart keeps the invariant: it is counted, due and within the limit |
| ServerHealth.ResumeIsLogged | audio/wsl2_server_manager.py:221-629 | A step records its own probe's answer, and a change to ready whenever the server becomes so |
| ServerHealth.OnlyResumeIsLogged | audio/wsl2_server_manager.py:221-629 | Calls, cancellations and exceptions neither restart automatically nor make the server ready |
| ServerHealth.QuietStopLasts | audio/wsl2_server_manager.py:467-545 | After a manual stop with the loops asleep and nothing but stops under way the server stays down, even under cancellations from outside |
| ServerHealth.ManualStopLastsIff | audio/wsl2_server_manager.py:467-545 | After every run: the server stays down if and only if it is not ready, a manual stop is in force, the loops sleep or are cancelled and whatever leads to a start is held up by another loop; if not, the program's own steps can make it ready |
| ServerHealth.HeldDownLasts | audio/wsl2_server_manager.py:467-545 | From such a state nothing but a forced start, a restart or a cancellation from outside changes that |
| ServerHealth.StartCanSucceed | audio/wsl2_server_manager.py:221-545 | A task on its way to a start that is not held up can still make the server ready, by the program's own steps, whatever else is under way |
| ServerHealth.UnheldCanBecomeReady | audio/wsl2_server_manager.py:467-629 | A manual stop with anything under way that is not held up can be undone by the program's own steps |
| ServerHealth.UnstoppedCanBecomeReady | audio/wsl2_server_manager.py:221-271 | Without a manual stop in force an ordinary start can make the server ready |
| ServerHealth.RestartPauseIsReached | audio/wsl2_server_manager.py:534-629 | A run from the start into the pause of an automatic restart, where no stop finds the restarting loop |
| ServerHealth.StopInRestartPauseIsUndone | audio/wsl2_server_manager.py:467-545 | In that run a manual stop returns with the server stopped, and the restart then makes the server ready |
| ServerHealth.RestartCanHang | audio/wsl2_server_manager.py:483-489 | A run in which a restart waits for ever for a loop that swallowed its cancellation |
| ServerRuns.LogsAreSafe | audio/wsl2_server_manager.py:548-629 | The log of every run, event by event: two failed checks of its own before an automatic restart with no good answer between them, 60 seconds between two of one loop, at most three in all, a good answer before every change to ready |
| ServerRuns.StartsLeaveALoop | audio/wsl2_server_manager.py:393-395 | In every state of every run: a step of a start or restart that makes the server ready, or finds it answering, leaves a registered health loop alive, the old one or a fresh sleeping one; no other step of theirs makes one |
| ServerRuns.StartBeginsIff | audio/wsl2_server_manager.py:233-243 | A start goes on to its first probe if and only if no manual stop keeps it back and no start is under way; else it changes nothing |
| ServerRuns.RunningServerIsFound | audio/wsl2_server_manager.py:244-271 | A server that answers the first probe is ready, or loading its model, and is watched |
| ServerRuns.ColdStartLaunches | audio/wsl2_server_manager.py:273-353 | A server that does not answer is launched, step by step, which ends a manual stop |
| ServerRuns.ColdStartEnds | audio/wsl2_server_manager.py:360-397 | Once it answers it becomes ready, warmed up first if its model is loaded, with a new sleeping health loop |
| ServerRuns.FirstColdStart | audio/wsl2_server_manager.py:221-397 | From the very start: the whole run ends ready and watched |
| ServerRuns.StartFails | audio/wsl2_server_manager.py:273-358 | Without WSL, setup or process, or with a process that dies, the start ends in an error |
| ServerRuns.PollingGivesUp | audio/wsl2_server_manager.py:345-424 | A launched server that never answers is polled sixty times in three minutes; then the start ends in an error |
| ServerRuns.CheckDecides | audio/wsl2_server_manager.py:561-626 | A health check restarts the server if and only if it is at least the second failure in a row, the loop's last restart is 60 seconds ago or more and fewer than three were counted; with three the loop gives up; any other answer only counts |
| ServerRuns.StopStops | audio/wsl2_server_manager.py:467-532 | Without a health loop a stop leaves the server stopped and, if it is by the user, a manual stop in force |
| ServerRuns.StopCancelsLoop | audio/wsl2_server_manager.py:479-532 | A stop cancels the running loop, waits for its end, and only then is the server stopped and no loop registered |
| ServerRuns.RestartStarts | audio/wsl2_server_manager.py:534-545 | A restart is counted, stops, pauses and starts, also where a manual stop is in force |

## Left out

- EditDistance.FindNearest: the earlier strategies of the fuzzy match (suffixes, version numbers, prefixes, substrings) are not modelled; each is a lookup. Lower-casing is a parameter.
- ToolCallStripping.ExtractContent: the final squeezing of newlines and stripping of the ends are not modelled. Regular-expression matches are given as ranges; any ranges within the text are allowed. Names in decoded objects are strings.
- ToolCallStripping.BareCallsAreRemoved: it is about texts that the two preparing substitutions of the bare parser leave as they are, since positions in a changed text are no positions in the original.
- Parsing of Kimi K2 tokens and of the legacy patterns: regular expressions over the text; only their removal is modelled.
- ToolLoop.Reasoner.ProcessInput: the forced answer after a detected loop, image paths, metrics, events, debug prompts and revolver bookkeeping are not modelled. A tool that raises ends the run in the program; here every executed tool has an outcome. The initial context has no tool messages, as the context builder never adds any.
- ToolInjection.InjectToolsIntoMessages: the instructions are a parameter; copies of messages are values, so aliasing with the caller's messages is not captured.
- MemoryWindow.GetRecentPermanentBlocks: the recalled block numbers, which the doc comment says are included, are no parameter, because the code leaves covered blocks out whether recalled or not and uses those numbers in log messages only. Loading a block gives the same result in both scans, and block i has number i. Negative limits are not modelled.
- Fallback.GeneratePrimaryWithRetry: the texts of errors are reduced to what the code tests in them. A constructor of a model that raises is not modelled.
- Revolver.GenerateWithRevolverRetry: what a candidate answers depends on its model name only; the notice about the model written into the context is not modelled.
- Revolver.ApplyRevolverMode: how the pool of offers is gathered (registry, keys, a local HTTP probe) is not modelled; its result is a parameter.
- SpeechChunking.ChunkTextForTts: a split is any alternation of texts and separators that gives back the text; separators start with punctuation and end with whitespace.
- SentenceStreaming.ExtractCompleteSentences: the boundary search, the URL search and the abbreviation table are parameters; of a boundary only its shape is used.
- VoiceActivity.VADBuffer.constructor: takes the two chunk counts; their computation from durations in floating point is not modelled.
- AudioCache.Cache.Set: a failing copy, directory listing or removal is not modelled. The hash is any function; its collision-freeness is not needed.
- SidecarCache.WatcherIsDroppedIff: that user ids hold no colon is checked where a bridge is built, in code that is not part of this model.
- SidecarCache.SidecarState.GetBridge: the lock is not modelled (one request at a time); a key derivation that raises is not modelled; the password hash is assumed free of collisions. Account creation for a user who already has a bridge changes the key outside these methods.
- ServerHealth.RunsAreSafe: tasks are values stepped from await to await rather than running coroutines. Besides the cancellations that stops make, one from outside may hit any task at any await, which allows more runs than the program has. Progress numbers and messages of the status are not modelled.
- Calls to providers, subprocesses, audio devices, model downloads, metrics and logging: outside the program's own logic.
- Circuit breakers and retry decorators: thin layers over libraries that are not part of this model.
- Embeddings and semantic search: floating-point scores and library search.
- Sidecar handlers and the graphical bridge: they forward to code that is not part of this model.
