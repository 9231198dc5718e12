/** `LlamaContext`: one loaded model with its inference context. The
    engine's tokenizer, chat template and sampler are foreign code, so they
    are fixed functions given when the context is created. The model
    assumes that callers never overlap calls on one context: the actor is
    reentrant, so in the source another call can run while `prompt` waits
    at an `await`, and nothing prevents that. */
module Context {
  import opened LlamaKit
  import opened Text
  import opened Engine
  import opened Sizing
  import opened Steering

  /** `llama_chat_apply_template` for one user message with the buffer
      capacity it is given: the formatted prompt, or `None` when the engine
      reports a negative result. */
  type ChatTemplate = (string, nat) -> Option<string>

  /** What the source takes for granted of the engine's tokenizer: it never
      yields more tokens than the buffer `tokenize` allocates. */
  ghost predicate FitsBuffer(tokenize: Tokenizer)
  {
    forall text, addBos :: |tokenize(text, addBos)| <= TokenBufferSize(Utf8Length(text), addBos)
  }

  /** How `prompt` ends: it returns the response, throws, or (in this model
      only) stops when its fuel is spent while the callback has not yet
      returned `.complete`. */
  datatype Outcome = Returned(response: string) | Threw(error: LlamaError) | Unfinished(response: string)

  class LlamaContext {
    var wrapper: SamplingWrapperActor?
    const tokenizer: Tokenizer
    const chatTemplate: ChatTemplate
    /** `llama_n_ctx(context)`. */
    const nCtx: nat

    ghost predicate Valid()
    {
      FitsBuffer(tokenizer)
    }

    constructor (sampler: Sampler, serializer: Serializer, tokenizer: Tokenizer,
                 chatTemplate: ChatTemplate, nCtx: nat)
      requires FitsBuffer(tokenizer)
      ensures Valid() && wrapper != null && fresh(wrapper) && wrapper.trace == []
      ensures wrapper.sampler == sampler && wrapper.serializer == serializer
      ensures this.tokenizer == tokenizer && this.chatTemplate == chatTemplate && this.nCtx == nCtx
    {
      this.tokenizer := tokenizer;
      this.chatTemplate := chatTemplate;
      this.nCtx := nCtx;
      wrapper := new SamplingWrapperActor(sampler, serializer);
    }

    /** The chat-formatted query, tokenized with a beginning-of-sequence
        token, or `None` when formatting fails. */
    function ChatTokens(query: string): (tokens: Option<seq<int>>)
    {
      match chatTemplate(query, TemplateBufferSize(query))
      case None => None
      case Some(prompt) => Some(tokenizer(prompt, true))
    }

    /** `llama_tokenize`: writes the tokens of `text` into `buf` and returns
        how many there are, or, when they do not fit, writes nothing and
        returns minus the number needed. */
    method LlamaTokenize(text: string, addBos: bool, buf: array<int>) returns (count: int)
      modifies buf
      ensures |tokenizer(text, addBos)| <= buf.Length ==>
        count == |tokenizer(text, addBos)| && buf[..count] == tokenizer(text, addBos)
      ensures |tokenizer(text, addBos)| > buf.Length ==>
        count == -|tokenizer(text, addBos)| && buf[..] == old(buf[..])
    {
      var result := tokenizer(text, addBos);
      if |result| > buf.Length {
        return -|result|;
      }
      for i := 0 to |result|
        invariant buf[..i] == result[..i]
      {
        buf[i] := result[i];
      }
      assert result[..|result|] == result;
      count := |result|;
    }

    /** `tokenize(text:add_bos:)`: sizes a buffer for the worst case, lets
        the engine fill it, and copies out the tokens it wrote. */
    method Tokenize(text: string, addBos: bool) returns (tokens: seq<int>)
      requires Valid()
      ensures tokens == tokenizer(text, addBos)
      ensures |tokens| <= TokenBufferSize(Utf8Length(text), addBos)
    {
      var utf8Count := Utf8Length(text);
      var nTokens := TokenBufferSize(utf8Count, addBos);
      var buf := new int[nTokens];
      var tokenCount := LlamaTokenize(text, addBos, buf);
      tokens := [];
      for i := 0 to tokenCount
        invariant tokens == buf[..i]
      {
        tokens := tokens + [buf[i]];
      }
    }

    /** `chatifyAndTokenizeQuery`: formats the query as a user message into
        a buffer of `1200 + utf8 length` bytes, throws `sampleInitFailed`
        when formatting fails, and tokenizes the prompt. The cache check
        only prints (`warned`); it never throws. */
    method ChatifyAndTokenizeQuery(query: string) returns (r: Result<seq<int>>, warned: bool)
      requires Valid()
      ensures ChatTokens(query).None? ==> r == Failure(SampleInitFailed) && !warned
      ensures ChatTokens(query).Some? ==> r == Success(ChatTokens(query).value)
      ensures warned <==> ChatTokens(query).Some? && nCtx < NLen
    {
      var maxLen := TemplateBufferSize(query);
      var formatted := chatTemplate(query, maxLen);
      if formatted.None? {
        return Failure(SampleInitFailed), false;
      }
      var promptTokens := Tokenize(formatted.value, true);
      var nKVReq := KvRequired(|promptTokens|);
      warned := nKVReq > nCtx;
      r := Success(promptTokens);
    }

    /** `savePromptState`: feeds the chat tokens of `prompt`, with no
        sampling, then serializes the engine state. */
    method SavePromptState(prompt: string, includeSampler: bool) returns (r: Result<seq<bv8>>)
      requires Valid()
      modifies wrapper
      ensures wrapper == null ==> r == Failure(ModelLoadFailed)
      ensures wrapper != null && ChatTokens(prompt).None? ==>
        r == Failure(SampleInitFailed) && wrapper.trace == old(wrapper.trace)
      ensures wrapper != null && ChatTokens(prompt).Some? ==>
        var fed := old(wrapper.trace) + [EvaluateTokens(ChatTokens(prompt).value)];
        wrapper.trace == fed + [SerializeCall(includeSampler)] &&
        r == Success(wrapper.serializer(fed, includeSampler))
    {
      if wrapper == null {
        return Failure(ModelLoadFailed);
      }
      var promptTokens, _ := ChatifyAndTokenizeQuery(prompt);
      if promptTokens.Failure? {
        return Failure(promptTokens.error);
      }
      wrapper.EvaluateTokens(promptTokens.value);
      var blob := wrapper.SerializeContext(includeSampler);
      r := Success(blob);
    }

    /** `restorePromptState`: hands the blob to the engine. */
    method RestorePromptState(blob: seq<bv8>) returns (r: Result<()>)
      modifies wrapper
      ensures wrapper == null ==> r == Failure(ModelLoadFailed)
      ensures wrapper != null ==> r == Success(()) && wrapper.trace == old(wrapper.trace) + [RestoreCall(blob)]
    {
      if wrapper == null {
        return Failure(ModelLoadFailed);
      }
      wrapper.RestoreContext(blob);
      r := Success(());
    }

    /** `clear`: resets the engine's generation state. */
    method Clear() returns (r: Result<()>)
      modifies wrapper
      ensures wrapper == null ==> r == Failure(ModelLoadFailed)
      ensures wrapper != null ==> r == Success(()) && wrapper.trace == old(wrapper.trace) + [ClearCall]
    {
      if wrapper == null {
        return Failure(ModelLoadFailed);
      }
      wrapper.Clear();
      r := Success(());
    }

    /** The `switch callbackResult` of `prompt` for a directive other than
        `.complete`: the engine calls, `ret` and `strings` follow `Apply`. */
    method ApplyDirective(w: SamplingWrapperActor, d: Directive, ret: string, strings: seq<string>)
      returns (ret': string, strings': seq<string>)
      requires Valid() && !d.Complete?
      modifies w
      ensures var step := Apply(tokenizer, d, ret, strings);
        w.trace == old(w.trace) + step.calls && ret' == step.ret && strings' == step.strings
    {
      match d {
        case Start =>
          ret', strings' := ret, strings;
        case Accept(sample) =>
          ret' := ret + sample.token;
          w.AcceptToken(sample.tokenValue);
          strings' := strings;
        case Force(str) =>
          var tokens := Tokenize(str, false);
          w.AcceptTokens(tokens);
          ret' := ret + " " + str;
          strings' := strings + [str];
        case AcceptAndAvoid(str, avoid) =>
          var tokens := Tokenize(str, false);
          w.AcceptTokens(tokens);
          ret' := ret + str;
          strings' := strings + [str];
        case AcceptAndForce(str, forced) =>
          var tokens := Tokenize(str, false);
          w.AcceptTokens(tokens);
          ret' := ret + str;
          strings' := strings + [str];
          var next := Tokenize(forced, false);
          w.AcceptTokens(next);
          ret' := ret' + forced;
          strings' := strings' + [forced];
        case ReverseAndForce(bad, forced) =>
          w.Reverse(bad);
          ret' := ReplaceAll(ret, bad, forced);
          var next := Tokenize(forced, false);
          w.AcceptTokens(next);
          strings' := strings;
      }
    }

    /** `prompt`: feeds the chat tokens of the query, then loops: apply the
        directive, draw one sample, ask the callback; until the callback
        returns `.complete`. The loop has no bound of its own, so the model
        runs it for at most `fuel` turns. */
    method Prompt(query: string, callback: Callback, fuel: nat) returns (outcome: Outcome)
      requires Valid()
      modifies wrapper
      ensures wrapper == null ==> outcome == Threw(ModelLoadFailed)
      ensures wrapper != null && ChatTokens(query).None? ==>
        outcome == Threw(SampleInitFailed) && wrapper.trace == old(wrapper.trace)
      ensures wrapper != null && ChatTokens(query).Some? ==>
        var run := Steer(tokenizer, wrapper.sampler, callback,
                         Initial(old(wrapper.trace) + [EvaluateTokens(ChatTokens(query).value)]), fuel);
        wrapper.trace == run.last.trace &&
        outcome == (if run.finished then Returned(run.last.ret) else Unfinished(run.last.ret))
    {
      if wrapper == null {
        return Threw(ModelLoadFailed);
      }
      var w := wrapper;
      var promptTokens, _ := ChatifyAndTokenizeQuery(query);
      if promptTokens.Failure? {
        return Threw(promptTokens.error);
      }
      w.EvaluateTokens(promptTokens.value);
      ghost var start := Initial(w.trace);
      var callbackResult := Start;
      var ret := "";
      var strings: seq<string> := [];
      var samples: seq<SampledValue> := [];
      var left := fuel;
      while !callbackResult.Complete?
        invariant Steer(tokenizer, w.sampler, callback, LoopState(callbackResult, w.trace, ret, strings, samples), left)
               == Steer(tokenizer, w.sampler, callback, start, fuel)
        decreases left
      {
        if left == 0 {
          return Unfinished(ret);
        }
        ret, strings := ApplyDirective(w, callbackResult, ret, strings);
        var r := w.Sample();
        var sample := SampledValue(r.sampleStr, ret, r.sampleToken, r.isEndOfSentence);
        samples := samples + [sample];
        callbackResult := callback(samples);
        left := left - 1;
      }
      return Returned(ret);
    }
  }
}
