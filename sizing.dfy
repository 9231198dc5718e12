/** The arithmetic of `LlamaContext`: the thread count and context
    parameters of `createContext`, the token buffer of `tokenize`, and the
    template buffer and cache requirement of `chatifyAndTokenizeQuery`. */
module Sizing {
  import opened LlamaKit
  import opened Text

  const UInt32Max: nat := 0xFFFF_FFFF

  /** `max(1, min(8, processorCount - 2))`. */
  function ThreadCount(processorCount: int): (n: int)
    ensures 1 <= n <= 8
    ensures processorCount <= 3 ==> n == 1
    ensures 3 <= processorCount <= 10 ==> n == processorCount - 2
    ensures processorCount >= 10 ==> n == 8
  {
    var capped := if 8 < processorCount - 2 then 8 else processorCount - 2;
    if 1 < capped then capped else 1
  }

  /** The fields of `llama_context_params` that `createContext` sets. */
  datatype ContextParams = ContextParams(seed: nat, nCtx: nat, nThreads: nat, nThreadsBatch: nat)

  /** `createContext` with its foreign calls as inputs: whether the model
      file loads, the seed drawn from `0..<UINT32_MAX`, and whether the
      engine accepts the parameters. */
  function CreateContext(modelLoads: bool, params: ModelParams, processorCount: int, seed: nat,
                         contextCreates: ContextParams -> bool): (r: Result<ContextParams>)
    requires seed < UInt32Max
    ensures !modelLoads ==> r == Failure(ModelLoadFailed)
    ensures modelLoads && r.Failure? ==> r.error == CouldNotInitializeContext
    ensures modelLoads ==>
      var n := ThreadCount(processorCount);
      (r.Success? <==> contextCreates(ContextParams(seed, params.contextLength, n, n)))
    ensures r.Success? ==>
      modelLoads && contextCreates(r.value) &&
      r.value.seed == seed && r.value.nCtx == params.contextLength &&
      r.value.nThreads == r.value.nThreadsBatch == ThreadCount(processorCount) &&
      1 <= r.value.nThreads <= 8
  {
    if !modelLoads then Failure(ModelLoadFailed)
    else
      var n := ThreadCount(processorCount);
      var cp := ContextParams(seed, params.contextLength, n, n);
      if contextCreates(cp) then Success(cp) else Failure(CouldNotInitializeContext)
  }

  /** `utf8Count + (add_bos ? 1 : 0) + 1`: room for one token per byte, the
      optional beginning-of-sequence token and one more. */
  function TokenBufferSize(utf8Count: nat, addBos: bool): (n: nat)
    ensures n > utf8Count
    ensures addBos ==> n == utf8Count + 2
    ensures !addBos ==> n == utf8Count + 1
  {
    utf8Count + (if addBos then 1 else 0) + 1
  }

  /** `1200 + query.lengthOfBytes(using: .utf8)`. */
  function TemplateBufferSize(query: string): (n: nat)
    ensures n >= 1200 + |query|
  {
    Utf8LengthBounds(query);
    1200 + Utf8Length(query)
  }

  /** `nLen` of `chatifyAndTokenizeQuery`. */
  const NLen: int := 64

  /** `promptTokens.count + (Int(nLen) - promptTokens.count)`: the prompt's
      length cancels out, so the requirement never depends on the prompt. */
  function KvRequired(promptTokenCount: nat): (n: int)
    ensures n == NLen
  {
    promptTokenCount + (NLen - promptTokenCount)
  }

  /** The advisory check: `nKVReq > modelContextLen` only prints. */
  function KvWarning(promptTokenCount: nat, nCtx: nat): (warn: bool)
    ensures warn <==> nCtx < 64
  {
    KvRequired(promptTokenCount) > nCtx
  }
}
