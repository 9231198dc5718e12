# LlamaKit steering core in Dafny

LlamaKit wraps a llama.cpp inference engine. A caller gives `LlamaContext.prompt` a query and a callback. The context chat-formats and tokenizes the query and feeds it to the engine. Then it loops: it applies the callback's last directive, draws one sample, and hands the sample to the callback. The directives are `start`, `accept(sample)`, `force`, `acceptAndAvoid`, `acceptAndForce`, `reverseAndForce` and `complete`. The context can also prime the engine with a prompt and serialize its state (`savePromptState`), restore such a state, and clear the engine.

This project models that core:

- `llamakit.dfy` (module `LlamaKit`): the public types. These are the errors, the sampled value, the directive and the model parameters.
- `text.dfy` (module `Text`): the two Swift string operations the core relies on. One is the UTF-8 byte count. The other is `replacingOccurrences(of:with:)`, which replaces every non-overlapping occurrence from the left.
- `engine.dfy` (module `Engine`): `SamplingWrapperActor` as a class. The engine's internals are foreign, so its state is the sequence of calls it has received (`trace`). A sample and a serialized blob are functions of that history, fixed when the engine is built. `FedTokens` gives the tokens the engine was handed as tokens, through `accept` and `evaluateTokens`. The tokens the wrapper derives itself from the text of `evaluateString` are not tracked.
- `batch.dfy` (module `Batch`): `llama_batch_clear` and `llama_batch_add` over a class of parallel arrays with an `nTokens` cursor. `Contents()` is the sequence of used slots.
- `sizing.dfy` (module `Sizing`): the arithmetic. This covers the thread-count clamp and the context parameters of `createContext`, the token buffer size, the chat-template buffer size, and the `nKVReq` advisory check.
- `steering.dfy` (module `Steering`): the loop as functions. `Apply` is one directive, `Iterate` one turn, and `Steer` a run with fuel. Lemmas about runs sit beside them.
- `context.dfy` (module `Context`): `LlamaContext` as a class. Its methods are `tokenize`, `chatifyAndTokenizeQuery`, `savePromptState`, `restorePromptState`, `clear` and `prompt`. `prompt` is a `while` loop proved equal to `Steer`.

Behaviours kept as the code has them:

- `force(str)` appends `" " + str` to the response, but it feeds the engine only the tokens of `str`. After a force, the response holds a space the engine never saw.
- `reverseAndForce(bad, forced)` replaces every occurrence of `bad` in the response, not only the first or the last. The forced text is fed but not appended again. `Text.ReplaceAllLeftmost` shows this, and `Text.ReplaceAllAbsent` shows that a response without `bad` is left as it is.
- `acceptAndAvoid` ignores its avoid list.
- `nKVReq` is `count + (64 - count)`, which is always 64. The advisory warning therefore depends only on the context size, never on the prompt length. It only prints and never throws.

Where the sources disagree:

- The enum at `Sources/LlamaKit/LlamaKit.swift:8-15` declares `accept(String)` and has no `force` case. The loop in `LlamaContext.swift:212-221` matches `.accept(let sample)` and reads `sample.token` and `sample.tokenValue`. It also handles `.force(let str)`, and the tests return `.force(...)`. The model follows the loop: `Accept` carries a `SampledValue`, and `Force` is a case.
- The loop reads `r.isEndOfSentence` (`LlamaContext.swift:259`), but `SampleResponse` in `Sources/LlamaCppObjC/include/SamplingWrapper.h:12-17` declares only `sampleStr` and `sampleToken`. The model gives `SampleResponse` the flag the loop reads.
- `savePromptState` takes `prompt` and `includeSampler` (`LlamaContext.swift:168`), but the tests call it with `prompt` alone (`Tests/LlamaKitTests/LlamaKitTests.swift:73`). The model follows the declaration.

Foreign code and I/O become inputs:

- The tokenizer is a function `(text, addBos) -> tokens`.
- The chat template is a function `(query, capacity) -> Option<prompt>`. `None` stands for a negative result.
- The sampler and serializer are functions of the engine's call history.
- `llama_n_ctx` is a constant of the context.
- The callback is a function of every sample offered so far, the newest last. This also covers Swift closures that keep a counter.
- The random seed, whether the model file loads, and whether the engine accepts the context parameters are inputs to `Sizing.CreateContext`.
- The printed diagnostic is the `warned` result of `ChatifyAndTokenizeQuery`.
- `llama_tokenize` is not part of this model. `Context.LlamaContext.LlamaTokenize` follows the convention of llama.cpp's public API: it writes the tokens when they fit, and otherwise returns minus the number needed.
- `llama_batch_init` is not part of this model. The `LlamaBatch` constructor stands for it.

## Model

| member | source | states |
|---|---|---|
| `Text.Utf8Width` | Sources/LlamaKit/LlamaContext.swift:119 | a scalar takes 1 to 4 UTF-8 bytes, and takes 1 exactly when it is ASCII |
| `Text.Utf8LengthAppend` | Sources/LlamaKit/LlamaContext.swift:119 | the UTF-8 byte count of a concatenation is the sum of the counts |
| `Text.Utf8LengthBounds` | Sources/LlamaKit/LlamaContext.swift:119-120 | the byte count lies between the scalar count and four times it, and equals the scalar count exactly when the text is ASCII |
| `Text.ReplaceAllAbsent` | Sources/LlamaKit/LlamaContext.swift:245 | `replacingOccurrences` leaves text without `bad` unchanged |
| `Text.ReplaceAllSame` | Sources/LlamaKit/LlamaContext.swift:245 | replacing `bad` by itself leaves any text unchanged |
| `Text.ReplaceAllLeftmost` | Sources/LlamaKit/LlamaContext.swift:245 | at the leftmost occurrence, `bad` becomes `good`, the text before it is kept, and replacing continues in the rest, so no occurrence is skipped |
| `Engine.FedTokensAppend` | Sources/LlamaKit/LlamaContext.swift:35-51 | the tokens fed over two call histories are those of the first followed by those of the second |
| `Engine.SampleCountAppend` | Sources/LlamaKit/LlamaContext.swift:39-41 | the samples drawn over two call histories add up |
| `Engine.AcceptAllFeeds` | Sources/LlamaKit/LlamaContext.swift:216-219 | accepting tokens one at a time makes one call per token, feeds exactly those tokens in order, and draws no sample |
| `Engine.AcceptAllAppend` | Sources/LlamaKit/LlamaContext.swift:216-219 | accepting `a + b` token by token makes the calls for `a`, then those for `b` |
| `Engine.SamplingWrapperActor.constructor` | Sources/LlamaKit/LlamaContext.swift:31-33 | a new engine has received no calls |
| `Engine.SamplingWrapperActor.AcceptToken` | Sources/LlamaKit/LlamaContext.swift:35-37 | `accept` records one call and feeds exactly that token |
| `Engine.SamplingWrapperActor.Sample` | Sources/LlamaKit/LlamaContext.swift:39-41 | `sample` returns the engine's proposal for its history so far, records one sample, and feeds nothing |
| `Engine.SamplingWrapperActor.EvaluateString` | Sources/LlamaKit/LlamaContext.swift:43-45 | `evaluateString` records one opaque call |
| `Engine.SamplingWrapperActor.EvaluateTokens` | Sources/LlamaKit/LlamaContext.swift:47-51 | `evaluateTokens` records one call and feeds the tokens in order |
| `Engine.SamplingWrapperActor.SerializeContext` | Sources/LlamaKit/LlamaContext.swift:53-55 | `serializeContext` returns the blob for the current history and the sampler flag, and records the call |
| `Engine.SamplingWrapperActor.RestoreContext` | Sources/LlamaKit/LlamaContext.swift:57-59 | `restoreContext` records one opaque call carrying the blob |
| `Engine.SamplingWrapperActor.Reverse` | Sources/LlamaKit/LlamaContext.swift:61-63 | `reverse` records one opaque call carrying `bad` |
| `Engine.SamplingWrapperActor.Clear` | Sources/LlamaKit/LlamaContext.swift:65-67 | `clear` records one opaque call |
| `Engine.SamplingWrapperActor.AcceptTokens` | Sources/LlamaKit/LlamaContext.swift:217-219 | the `for t in tokens { accept(t) }` loop makes one accept call per token, in order, and feeds exactly `tokens` |
| `Batch.BatchClear` | Sources/LlamaKit/LlamaContext.swift:13-15 | `llama_batch_clear` sets `n_tokens` to 0, which empties the batch, and touches no array |
| `Batch.BatchAdd` | Sources/LlamaKit/LlamaContext.swift:17-27 | `llama_batch_add` appends exactly one slot to the batch. It writes token, pos, seq-id count, seq ids, and logits (1 if true, else 0) only at old `n_tokens`. It leaves every other slot and row unchanged and increases `n_tokens` by 1 |
| `Batch.CopyIds` | Sources/LlamaKit/LlamaContext.swift:21-23 | the sequence ids are written to the front of the slot's row, in order, and the rest of the row is unchanged |
| `Sizing.ThreadCount` | Sources/LlamaKit/LlamaContext.swift:100 | the thread count lies in 1..8 for any processor count. It is the processor count minus 2 when that lies in range, and clamps to 1 or 8 otherwise |
| `Sizing.CreateContext` | Sources/LlamaKit/LlamaContext.swift:90-115 | a model that fails to load throws `modelLoadFailed`. Once the model loads, the call succeeds exactly when the engine accepts the parameters built from the seed, the context length and the clamped thread count, and otherwise throws `couldNotInitializeContext`. On success, both thread counts equal `ThreadCount(processorCount)`, which lies in 1..8 |
| `Sizing.TokenBufferSize` | Sources/LlamaKit/LlamaContext.swift:120 | the token buffer holds the UTF-8 byte count plus 2 with a BOS token, or plus 1 without one |
| `Sizing.TemplateBufferSize` | Sources/LlamaKit/LlamaContext.swift:148 | the template buffer holds at least 1200 bytes plus one per scalar of the query |
| `Sizing.KvRequired` | Sources/LlamaKit/LlamaContext.swift:157-158 | `nKVReq` equals 64 whatever the prompt length |
| `Sizing.KvWarning` | Sources/LlamaKit/LlamaContext.swift:156-164 | the advisory warning is printed exactly when the context is smaller than 64 tokens, whatever the prompt |
| `Steering.ApplyEffect` | Sources/LlamaKit/LlamaContext.swift:211-256 | per directive: `start` changes nothing. `accept(s)` feeds `s.tokenValue` and appends `s.token`. `force(str)` feeds `Tokenize(str)`, appends `" " + str` and logs `str`. `acceptAndAvoid` feeds and appends `str` and ignores the avoid list. `acceptAndForce` feeds and appends `str` then `forced` and logs both in order. `reverseAndForce` first reverses `bad`, then feeds `Tokenize(forced)`, replaces every `bad` in `ret` and leaves `strings` unchanged, so `ret` is unchanged if `bad` is absent. No directive draws a sample |
| `Steering.IterateSamplesOnce` | Sources/LlamaKit/LlamaContext.swift:258-261 | each turn applies the directive, then draws exactly one sample whose `fullResponse` is `ret` after the directive, then asks the callback once with that sample |
| `Steering.SteerCountsSamples` | Sources/LlamaKit/LlamaContext.swift:206-262 | over a run, samples offered to the callback and samples drawn from the engine match one for one. The history only grows. A run is finished exactly when the last directive is `complete` |
| `Steering.SteerFuelMonotone` | Sources/LlamaKit/LlamaContext.swift:205-208 | the loop stops only on `complete`, so the fuel bound is not behaviour: a run that finished with some fuel ends in the same state with any larger fuel |
| `Steering.SteerKeepsAccepted` | Sources/LlamaKit/LlamaContext.swift:205-214 | with the callback that accepts every sample until end of sequence, every turn of the loop keeps the state in which each sample saw the pieces before it and `ret` holds the pieces accepted so far |
| `Steering.AcceptAllConcatenates` | Sources/LlamaKit/LlamaContext.swift:212-214 | with a callback that accepts every sample until end of sequence, each sample's `fullResponse` is the concatenation of the earlier pieces. A finished run returns the pieces of all samples except the final end-of-sequence one |
| `Steering.ResponseOnlyGrows` | Sources/LlamaKit/LlamaContext.swift:206-257 | without `reverseAndForce`, the response at any turn is a prefix of the response returned |
| `Steering.ForcedTextIsKept` | Sources/LlamaKit/LlamaContext.swift:215-221 | text forced by a callback that never reverses appears, after a space, in the returned response |
| `Context.LlamaContext.constructor` | Sources/LlamaKit/LlamaContext.swift:77-82 | a new context owns a fresh engine that has received no calls |
| `Context.LlamaContext.LlamaTokenize` | Sources/LlamaKit/LlamaContext.swift:122 | the engine writes the tokens when they fit, otherwise it writes nothing and returns minus the number needed |
| `Context.LlamaContext.Tokenize` | Sources/LlamaKit/LlamaContext.swift:118-133 | `tokenize` returns exactly the engine's tokens, in order and not truncated, and they fit the `utf8Count + bos + 1` buffer |
| `Context.LlamaContext.ChatifyAndTokenizeQuery` | Sources/LlamaKit/LlamaContext.swift:135-166 | a failed template throws `sampleInitFailed`. Otherwise it returns the tokens of the formatted prompt with BOS, and it warns exactly when the context is below 64, never throwing for it |
| `Context.LlamaContext.SavePromptState` | Sources/LlamaKit/LlamaContext.swift:168-175 | no engine throws `modelLoadFailed`, and a template failure throws with the engine untouched. Otherwise it feeds exactly the chat tokens, then serializes and returns the blob of that state |
| `Context.LlamaContext.RestorePromptState` | Sources/LlamaKit/LlamaContext.swift:177-183 | no engine throws `modelLoadFailed`. Otherwise it makes one restore call with the blob |
| `Context.LlamaContext.Clear` | Sources/LlamaKit/LlamaContext.swift:186-193 | no engine throws `modelLoadFailed`. Otherwise it makes one clear call |
| `Context.LlamaContext.ApplyDirective` | Sources/LlamaKit/LlamaContext.swift:211-251 | the switch over the directive makes exactly the engine calls of `Apply` and leaves `ret` and `strings` as `Apply` says |
| `Context.LlamaContext.Prompt` | Sources/LlamaKit/LlamaContext.swift:195-264 | no engine throws `modelLoadFailed`, and a template failure throws `sampleInitFailed` with the engine untouched. Otherwise it feeds the chat tokens of the query, then runs the loop as `Steer` from `start` with an empty response. It returns `ret` when the callback says `complete`, and the engine's history is that of the run |

## Left out

- Concurrency: the actor isolation and `async`/`await` of `LlamaContext` and `SamplingWrapperActor` are not modelled. The model assumes that callers never overlap calls on one context, and treats each call as a sequential method call. The source does not enforce this: Swift actors are reentrant, so while `prompt` waits at an `await` (`LlamaContext.swift:202`, `214`, `218`, `244`, `258`), another `prompt`, `clear` or `restorePromptState` on the same context can run and interleave its engine calls with the loop.
- Engine internals: model loading, context allocation, `llama_backend_init`/`llama_backend_free`, and the resource release in `deinit` (`LlamaContext.swift:84-115`) are foreign calls. Only their outcomes enter `Sizing.CreateContext`.
- `SamplingWrapper` internals: the sampling math, the token rollback of `reverse`, the blob format, and what restore and clear do to the engine are not modelled. They are opaque entries in the engine's call history.
- C-string and pointer plumbing (`strdup`, `withCString`, `String(cString:)`, allocate/deallocate) is not modelled. The source never releases the `strdup` copies or the template buffer in `chatifyAndTokenizeQuery`, and that leak is outside the model.
- Context.LlamaContext.Prompt: the Swift loop has no bound except the callback returning `.complete`. The model runs at most `fuel` turns and reports `Unfinished` when they run out. `Steering.SteerFuelMonotone` shows that a finished run does not depend on the fuel given.
- Context.LlamaContext.Tokenize: assumes the engine's tokenizer never yields more tokens than the `utf8Count + bos + 1` buffer (`FitsBuffer`). Otherwise `llama_tokenize` returns a negative count and the Swift range `0..<tokenCount` traps. The source relies on this and does not check it.
- Context.LlamaContext.ChatifyAndTokenizeQuery: takes the formatted prompt as the template function returns it. The truncation that happens when the prompt is longer than the `1200 + utf8 length` buffer is not modelled.
- Integer widths: `Int32`/`UInt32` conversions of counts, `n_tokens` and `maxLen`, and their traps on overflow, are not modelled. Tokens and counts are unbounded integers.
- Text.ReplaceAll: `replacingOccurrences` compares strings up to Unicode canonical equivalence. The model compares scalar by scalar.
- The tokenizer's `parse_special` flag (always `false` here) and `evaluateString`'s batch size are not modelled.
- `llama_batch` fields the helpers never touch (`embd`, `all_pos_*`) are not modelled.
- The print statements are modelled only as the `warned` flag.
- `LlamaModel.swift` (a persistence record), `PerfTimer.swift` (wall-clock timing), and the tests (they need a model file and nondeterministic generation) are not modelled. The tests only informed the callback shape of `Steering.AcceptUntilEoS`.
- `decodeFailed` is declared but never thrown by the core, so no path produces it.
- Engine.SamplingWrapperActor.Sample: the source force-unwraps the wrapper's result (`samplingWrapper.sample()!`, `LlamaContext.swift:40`), so a `nil` from the engine traps. The model's sampler is total and always returns a response.
- Engine.FedTokens: the tokens `evaluateString` feeds through the wrapper's own tokenizer are not tracked. The core never calls `evaluateString`.
