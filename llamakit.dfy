/** Public types of LlamaKit: the errors the package throws, the sample
    handed to a steering callback, and the directive the callback returns. */
module LlamaKit {

  /** The errors of `LlamaError`. */
  datatype LlamaError =
    | CouldNotInitializeContext
    | ModelLoadFailed
    | DecodeFailed
    | SampleInitFailed

  /** A value or the error a Swift `throws` function raised. */
  datatype Result<+T> = Success(value: T) | Failure(error: LlamaError)

  datatype Option<+T> = None | Some(value: T)

  /** `LlamaSampledValue`: what the engine proposes next. `token` is the text
      of the sampled piece, `fullResponse` the response accumulated before it,
      `tokenValue` the token id, `isEoS` the end-of-sequence flag. */
  datatype SampledValue = SampledValue(token: string, fullResponse: string, tokenValue: int, isEoS: bool)

  /** `LlamaKitSamplingReturn`, with the cases the steering loop handles. */
  datatype Directive =
    | Complete
    | Start
    | Accept(sample: SampledValue)
    | Force(text: string)
    | AcceptAndAvoid(text: string, avoid: seq<string>)
    | AcceptAndForce(text: string, forced: string)
    | ReverseAndForce(bad: string, forced: string)

  /** `LlamaModelParams`. */
  datatype ModelParams = ModelParams(contextLength: nat)
}
