/** The inference engine behind `SamplingWrapperActor`. Its internals
    (sampling, the rollback done by `reverse`, the serialized blob format)
    are not visible, so the engine's state is the sequence of calls it has
    received; what it samples and what it serializes are functions of that
    history, fixed when the engine is created. */
module Engine {

  /** One call into the engine. */
  datatype EngineCall =
    | AcceptToken(token: int)
    | EvaluateTokens(tokens: seq<int>)
    | EvaluateString(prompt: string)
    | SampleCall
    | ReverseCall(bad: string)
    | SerializeCall(includeSampler: bool)
    | RestoreCall(blob: seq<bv8>)
    | ClearCall

  /** `SampleResponse` plus the end-of-sentence flag the core reads
      (`r.isEndOfSentence`), which the wrapper's header does not declare. */
  datatype SampleResponse = SampleResponse(sampleStr: string, sampleToken: int, isEndOfSentence: bool)

  /** What the engine proposes after a given history of calls. */
  type Sampler = seq<EngineCall> -> SampleResponse

  /** The blob the engine produces for a history and the sampler flag. */
  type Serializer = (seq<EngineCall>, bool) -> seq<bv8>

  /** The tokens handed to the engine as tokens, in order: those of
      `accept` and `evaluateTokens`. The tokens the wrapper derives itself
      from the text given to `evaluateString` are not tracked. */
  function FedTokens(calls: seq<EngineCall>): (tokens: seq<int>)
  {
    if calls == [] then []
    else
      var rest := FedTokens(calls[1..]);
      match calls[0]
      case AcceptToken(t) => [t] + rest
      case EvaluateTokens(ts) => ts + rest
      case _ => rest
  }

  /** Number of samples drawn in a history. */
  function SampleCount(calls: seq<EngineCall>): (n: nat)
  {
    if calls == [] then 0
    else (if calls[0].SampleCall? then 1 else 0) + SampleCount(calls[1..])
  }

  /** The calls made by `for t in tokens { accept(token: t) }`. */
  function AcceptAll(tokens: seq<int>): (calls: seq<EngineCall>)
  {
    if tokens == [] then [] else [AcceptToken(tokens[0])] + AcceptAll(tokens[1..])
  }

  lemma {:induction false} FedTokensAppend(a: seq<EngineCall>, b: seq<EngineCall>)
    ensures FedTokens(a + b) == FedTokens(a) + FedTokens(b)
  {
    if a == [] {
      assert a + b == b;
    } else {
      assert (a + b)[0] == a[0] && (a + b)[1..] == a[1..] + b;
      FedTokensAppend(a[1..], b);
    }
  }

  lemma {:induction false} SampleCountAppend(a: seq<EngineCall>, b: seq<EngineCall>)
    ensures SampleCount(a + b) == SampleCount(a) + SampleCount(b)
  {
    if a == [] {
      assert a + b == b;
    } else {
      assert (a + b)[0] == a[0] && (a + b)[1..] == a[1..] + b;
      SampleCountAppend(a[1..], b);
    }
  }

  /** Accepting tokens one at a time feeds exactly those tokens, in order,
      and draws no sample. */
  lemma {:induction false} AcceptAllFeeds(tokens: seq<int>)
    ensures |AcceptAll(tokens)| == |tokens|
    ensures FedTokens(AcceptAll(tokens)) == tokens
    ensures SampleCount(AcceptAll(tokens)) == 0
  {
    if tokens != [] {
      AcceptAllFeeds(tokens[1..]);
      assert tokens == [tokens[0]] + tokens[1..];
    }
  }

  lemma {:induction false} AcceptAllAppend(a: seq<int>, b: seq<int>)
    ensures AcceptAll(a + b) == AcceptAll(a) + AcceptAll(b)
  {
    if a == [] {
      assert a + b == b;
    } else {
      assert (a + b)[0] == a[0] && (a + b)[1..] == a[1..] + b;
      AcceptAllAppend(a[1..], b);
    }
  }

  /** `SamplingWrapperActor`: every call is appended to `trace`. */
  class SamplingWrapperActor {
    var trace: seq<EngineCall>
    const sampler: Sampler
    const serializer: Serializer

    constructor (sampler: Sampler, serializer: Serializer)
      ensures trace == [] && this.sampler == sampler && this.serializer == serializer
    {
      this.sampler := sampler;
      this.serializer := serializer;
      trace := [];
    }

    /** Tokens this engine has been fed so far. */
    function Fed(): seq<int>
      reads this
    {
      FedTokens(trace)
    }

    method AcceptToken(token: int)
      modifies this
      ensures trace == old(trace) + [EngineCall.AcceptToken(token)]
      ensures Fed() == old(Fed()) + [token]
    {
      FedTokensAppend(trace, [EngineCall.AcceptToken(token)]);
      trace := trace + [EngineCall.AcceptToken(token)];
    }

    method Sample() returns (r: SampleResponse)
      modifies this
      ensures r == sampler(old(trace))
      ensures trace == old(trace) + [SampleCall]
      ensures Fed() == old(Fed())
    {
      r := sampler(trace);
      FedTokensAppend(trace, [SampleCall]);
      trace := trace + [SampleCall];
    }

    method EvaluateString(prompt: string)
      modifies this
      ensures trace == old(trace) + [EngineCall.EvaluateString(prompt)]
    {
      trace := trace + [EngineCall.EvaluateString(prompt)];
    }

    method EvaluateTokens(tokens: seq<int>)
      modifies this
      ensures trace == old(trace) + [EngineCall.EvaluateTokens(tokens)]
      ensures Fed() == old(Fed()) + tokens
    {
      FedTokensAppend(trace, [EngineCall.EvaluateTokens(tokens)]);
      trace := trace + [EngineCall.EvaluateTokens(tokens)];
    }

    method SerializeContext(includeSampler: bool) returns (blob: seq<bv8>)
      modifies this
      ensures blob == serializer(old(trace), includeSampler)
      ensures trace == old(trace) + [SerializeCall(includeSampler)]
    {
      blob := serializer(trace, includeSampler);
      trace := trace + [SerializeCall(includeSampler)];
    }

    method RestoreContext(blob: seq<bv8>)
      modifies this
      ensures trace == old(trace) + [RestoreCall(blob)]
    {
      trace := trace + [RestoreCall(blob)];
    }

    method Reverse(bad: string)
      modifies this
      ensures trace == old(trace) + [ReverseCall(bad)]
    {
      trace := trace + [ReverseCall(bad)];
    }

    method Clear()
      modifies this
      ensures trace == old(trace) + [ClearCall]
    {
      trace := trace + [ClearCall];
    }

    /** `for t in tokens { await wrapper.accept(token: t) }`, which the
        steering loop repeats for every directive that injects text. */
    method AcceptTokens(tokens: seq<int>)
      modifies this
      ensures trace == old(trace) + AcceptAll(tokens)
      ensures Fed() == old(Fed()) + tokens
    {
      for i := 0 to |tokens|
        invariant trace == old(trace) + AcceptAll(tokens[..i])
      {
        AcceptAllAppend(tokens[..i], [tokens[i]]);
        assert tokens[..i + 1] == tokens[..i] + [tokens[i]];
        AcceptToken(tokens[i]);
      }
      assert tokens[..|tokens|] == tokens;
      AcceptAllFeeds(tokens);
      FedTokensAppend(old(trace), AcceptAll(tokens));
    }
  }
}
