/** The steering loop of `LlamaContext.prompt`, as functions: what one
    directive does to the engine, the response and the log of injected
    strings; what one turn of the loop does; and a run of the loop until
    the callback says `Complete` or the fuel runs out. */
module Steering {
  import opened LlamaKit
  import opened Text
  import opened Engine

  /** The engine's tokenizer with the `add_bos` flag. */
  type Tokenizer = (string, bool) -> seq<int>

  /** The caller's callback. It sees every sample it was offered so far, the
      newest last, which covers Swift closures that keep their own state. */
  type Callback = seq<SampledValue> -> Directive

  /** What applying one directive does: the engine calls it makes, then the
      response `ret` and the log `strings` afterwards. */
  datatype Step = Step(calls: seq<EngineCall>, ret: string, strings: seq<string>)

  /** The loop's variables between two turns: the directive to apply next,
      the engine's history, `ret`, `strings`, and every sample offered. */
  datatype LoopState = LoopState(directive: Directive, trace: seq<EngineCall>, ret: string,
                                 strings: seq<string>, samples: seq<SampledValue>)

  /** Where a run stopped: `finished` when the callback returned `Complete`,
      otherwise the fuel ran out first. */
  datatype Run = Run(finished: bool, last: LoopState)

  /** The `switch callbackResult` of the loop, for every case but `.complete`. */
  function Apply(tokenize: Tokenizer, d: Directive, ret: string, strings: seq<string>): (step: Step)
    requires !d.Complete?
  {
    match d
    case Start => Step([], ret, strings)
    case Accept(s) => Step([AcceptToken(s.tokenValue)], ret + s.token, strings)
    case Force(str) => Step(AcceptAll(tokenize(str, false)), ret + " " + str, strings + [str])
    case AcceptAndAvoid(str, _) => Step(AcceptAll(tokenize(str, false)), ret + str, strings + [str])
    case AcceptAndForce(str, forced) =>
      Step(AcceptAll(tokenize(str, false)) + AcceptAll(tokenize(forced, false)),
           ret + str + forced, strings + [str, forced])
    case ReverseAndForce(bad, forced) =>
      Step([ReverseCall(bad)] + AcceptAll(tokenize(forced, false)), ReplaceAll(ret, bad, forced), strings)
  }

  /** One turn of `while true`: apply the directive, draw one sample built
      from the response as it now is, and ask the callback what to do. */
  function Iterate(tokenize: Tokenizer, sampler: Sampler, callback: Callback, s: LoopState): (next: LoopState)
    requires !s.directive.Complete?
  {
    var step := Apply(tokenize, s.directive, s.ret, s.strings);
    var applied := s.trace + step.calls;
    var r := sampler(applied);
    var sample := SampledValue(r.sampleStr, step.ret, r.sampleToken, r.isEndOfSentence);
    var samples := s.samples + [sample];
    LoopState(callback(samples), applied + [SampleCall], step.ret, step.strings, samples)
  }

  /** The loop from state `s`, with at most `fuel` more turns. */
  function Steer(tokenize: Tokenizer, sampler: Sampler, callback: Callback, s: LoopState, fuel: nat): (run: Run)
    decreases fuel
  {
    if s.directive.Complete? then Run(true, s)
    else if fuel == 0 then Run(false, s)
    else Steer(tokenize, sampler, callback, Iterate(tokenize, sampler, callback, s), fuel - 1)
  }

  /** The state the loop starts in, after the query was fed. */
  function Initial(trace: seq<EngineCall>): (s: LoopState)
  {
    LoopState(Start, trace, "", [], [])
  }

  /** What each directive feeds the engine and writes to `ret` and
      `strings`, stated on the token stream the engine receives. */
  lemma ApplyEffect(tokenize: Tokenizer, d: Directive, ret: string, strings: seq<string>)
    requires !d.Complete?
    ensures var step := Apply(tokenize, d, ret, strings);
      SampleCount(step.calls) == 0 &&
      (d.Start? ==> step.calls == [] && step.ret == ret && step.strings == strings) &&
      (d.Accept? ==>
        FedTokens(step.calls) == [d.sample.tokenValue] && step.ret == ret + d.sample.token &&
        step.strings == strings) &&
      (d.Force? ==>
        FedTokens(step.calls) == tokenize(d.text, false) && step.ret == ret + " " + d.text &&
        step.strings == strings + [d.text]) &&
      (d.AcceptAndAvoid? ==>
        FedTokens(step.calls) == tokenize(d.text, false) && step.ret == ret + d.text &&
        step.strings == strings + [d.text]) &&
      (d.AcceptAndForce? ==>
        FedTokens(step.calls) == tokenize(d.text, false) + tokenize(d.forced, false) &&
        step.ret == ret + d.text + d.forced && step.strings == strings + [d.text, d.forced]) &&
      (d.ReverseAndForce? ==>
        step.calls[0] == ReverseCall(d.bad) &&
        FedTokens(step.calls) == tokenize(d.forced, false) &&
        step.ret == ReplaceAll(ret, d.bad, d.forced) && step.strings == strings &&
        (!Occurs(d.bad, ret) ==> step.ret == ret))
  {
    var step := Apply(tokenize, d, ret, strings);
    match d
    case Start =>
    case Accept(s) =>
      assert FedTokens(step.calls) == [s.tokenValue] + FedTokens([]);
    case Force(str) =>
      AcceptAllFeeds(tokenize(str, false));
    case AcceptAndAvoid(str, _) =>
      AcceptAllFeeds(tokenize(str, false));
    case AcceptAndForce(str, forced) =>
      AcceptAllFeeds(tokenize(str, false));
      AcceptAllFeeds(tokenize(forced, false));
      FedTokensAppend(AcceptAll(tokenize(str, false)), AcceptAll(tokenize(forced, false)));
      SampleCountAppend(AcceptAll(tokenize(str, false)), AcceptAll(tokenize(forced, false)));
    case ReverseAndForce(bad, forced) =>
      AcceptAllFeeds(tokenize(forced, false));
      FedTokensAppend([ReverseCall(bad)], AcceptAll(tokenize(forced, false)));
      SampleCountAppend([ReverseCall(bad)], AcceptAll(tokenize(forced, false)));
      if !Occurs(bad, ret) {
        ReplaceAllAbsent(ret, bad, forced);
      }
  }

  /** Every turn draws exactly one sample, after the directive's calls, and
      that sample carries the response as the directive left it. */
  lemma IterateSamplesOnce(tokenize: Tokenizer, sampler: Sampler, callback: Callback, s: LoopState)
    requires !s.directive.Complete?
    ensures var step := Apply(tokenize, s.directive, s.ret, s.strings);
      var n := Iterate(tokenize, sampler, callback, s);
      var r := sampler(s.trace + step.calls);
      n.trace == s.trace + step.calls + [SampleCall] &&
      SampleCount(n.trace) == SampleCount(s.trace) + 1 &&
      FedTokens(n.trace) == FedTokens(s.trace) + FedTokens(step.calls) &&
      n.samples == s.samples + [SampledValue(r.sampleStr, step.ret, r.sampleToken, r.isEndOfSentence)] &&
      n.samples[|s.samples|].fullResponse == n.ret &&
      n.directive == callback(n.samples)
  {
    var step := Apply(tokenize, s.directive, s.ret, s.strings);
    ApplyEffect(tokenize, s.directive, s.ret, s.strings);
    SampleCountAppend(s.trace, step.calls);
    SampleCountAppend(s.trace + step.calls, [SampleCall]);
    FedTokensAppend(s.trace, step.calls);
    FedTokensAppend(s.trace + step.calls, [SampleCall]);
  }

  /** Over a whole run, samples offered to the callback and samples drawn
      from the engine match one for one; a finished run ends on `Complete`
      and a run only extends the engine's history. */
  lemma {:induction false} SteerCountsSamples(tokenize: Tokenizer, sampler: Sampler, callback: Callback,
                                             s: LoopState, fuel: nat)
    ensures var e := Steer(tokenize, sampler, callback, s, fuel).last;
      |e.samples| - |s.samples| == SampleCount(e.trace) - SampleCount(s.trace) <= fuel &&
      s.samples <= e.samples && s.trace <= e.trace &&
      (Steer(tokenize, sampler, callback, s, fuel).finished <==> e.directive.Complete?)
    decreases fuel
  {
    if !s.directive.Complete? && fuel > 0 {
      var n := Iterate(tokenize, sampler, callback, s);
      IterateSamplesOnce(tokenize, sampler, callback, s);
      SteerCountsSamples(tokenize, sampler, callback, n, fuel - 1);
    }
  }

  /** Fuel only bounds the model: a run that finished with some fuel
      finishes the same way, in the same state, with any more. */
  lemma {:induction false} SteerFuelMonotone(tokenize: Tokenizer, sampler: Sampler, callback: Callback,
                                            s: LoopState, fuel: nat, more: nat)
    requires Steer(tokenize, sampler, callback, s, fuel).finished && fuel <= more
    ensures Steer(tokenize, sampler, callback, s, more) == Steer(tokenize, sampler, callback, s, fuel)
    decreases fuel
  {
    if !s.directive.Complete? {
      SteerFuelMonotone(tokenize, sampler, callback, Iterate(tokenize, sampler, callback, s), fuel - 1, more - 1);
    }
  }

  /** Concatenation of the `token` texts of some samples. */
  function Pieces(samples: seq<SampledValue>): (text: string)
  {
    if samples == [] then "" else Pieces(samples[..|samples| - 1]) + samples[|samples| - 1].token
  }

  /** The callback that accepts every sample until the engine signals the
      end of the sequence (the shape of the package's own tests). */
  function AcceptUntilEoS(samples: seq<SampledValue>): (d: Directive)
  {
    if samples == [] then Start
    else if samples[|samples| - 1].isEoS then Complete
    else Accept(samples[|samples| - 1])
  }

  /** Each sample saw, as its response, the pieces of the samples before it. */
  ghost predicate ResponsesArePieces(samples: seq<SampledValue>)
  {
    forall i :: 0 <= i < |samples| ==> samples[i].fullResponse == Pieces(samples[..i])
  }

  /** The loop state when every sample so far was accepted. */
  ghost predicate AcceptedSoFar(s: LoopState)
  {
    s.directive == AcceptUntilEoS(s.samples) &&
    ResponsesArePieces(s.samples) &&
    (s.samples == [] ==> s.ret == "") &&
    (s.samples != [] ==> s.ret == Pieces(s.samples[..|s.samples| - 1]))
  }

  lemma AcceptedSoFarStep(tokenize: Tokenizer, sampler: Sampler, s: LoopState)
    requires AcceptedSoFar(s) && !s.directive.Complete?
    ensures AcceptedSoFar(Iterate(tokenize, sampler, AcceptUntilEoS, s))
  {
    var n := Iterate(tokenize, sampler, AcceptUntilEoS, s);
    var k := |s.samples|;
    assert n.samples[..k] == s.samples;
    assert n.ret == Pieces(s.samples) by {
      if k > 0 {
        assert s.samples[..k - 1] + [s.samples[k - 1]] == s.samples;
      }
    }
    forall i | 0 <= i < |n.samples|
      ensures n.samples[i].fullResponse == Pieces(n.samples[..i])
    {
      if i < k {
        assert n.samples[..i] == s.samples[..i];
      }
    }
    assert ResponsesArePieces(n.samples);
  }

  /** Once that callback says `Complete`, the last sample was the end of the
      sequence and the response holds the pieces of all samples before it. */
  lemma AcceptedSoFarComplete(s: LoopState)
    requires AcceptedSoFar(s) && s.directive.Complete?
    ensures |s.samples| > 0 && s.samples[|s.samples| - 1].isEoS
    ensures s.ret == Pieces(s.samples[..|s.samples| - 1])
  {
  }

  /** That callback keeps `AcceptedSoFar` for as long as the loop runs. */
  lemma {:induction false} SteerKeepsAccepted(tokenize: Tokenizer, sampler: Sampler, s: LoopState, fuel: nat)
    requires AcceptedSoFar(s)
    ensures AcceptedSoFar(Steer(tokenize, sampler, AcceptUntilEoS, s, fuel).last)
    decreases fuel
  {
    if !s.directive.Complete? && fuel > 0 {
      var n := Iterate(tokenize, sampler, AcceptUntilEoS, s);
      AcceptedSoFarStep(tokenize, sampler, s);
      SteerKeepsAccepted(tokenize, sampler, n, fuel - 1);
      assert Steer(tokenize, sampler, AcceptUntilEoS, s, fuel) == Steer(tokenize, sampler, AcceptUntilEoS, n, fuel - 1);
    } else {
      assert Steer(tokenize, sampler, AcceptUntilEoS, s, fuel).last == s;
    }
  }

  /** With a callback that accepts every sample until end of sequence, every
      sample sees the concatenation of the pieces before it, and a finished
      run returns exactly the pieces of all samples but the final one. */
  lemma AcceptAllConcatenates(tokenize: Tokenizer, sampler: Sampler, s: LoopState, fuel: nat)
    requires AcceptedSoFar(s)
    ensures var run := Steer(tokenize, sampler, AcceptUntilEoS, s, fuel);
      var e := run.last;
      ResponsesArePieces(e.samples) &&
      (run.finished ==>
        |e.samples| > 0 && e.samples[|e.samples| - 1].isEoS &&
        e.ret == Pieces(e.samples[..|e.samples| - 1]))
  {
    var run := Steer(tokenize, sampler, AcceptUntilEoS, s, fuel);
    SteerKeepsAccepted(tokenize, sampler, s, fuel);
    if run.finished {
      SteerCountsSamples(tokenize, sampler, AcceptUntilEoS, s, fuel);
      AcceptedSoFarComplete(run.last);
    }
  }

  /** A callback that never rewinds. */
  ghost predicate NeverReverses(callback: Callback)
  {
    forall h :: !callback(h).ReverseAndForce?
  }

  /** Without `ReverseAndForce`, text once in the response stays there: the
      response at any point is a prefix of the response returned. */
  lemma {:induction false} ResponseOnlyGrows(tokenize: Tokenizer, sampler: Sampler, callback: Callback,
                                            s: LoopState, fuel: nat)
    requires NeverReverses(callback)
    requires !s.directive.ReverseAndForce?
    ensures IsPrefix(s.ret, Steer(tokenize, sampler, callback, s, fuel).last.ret)
    decreases fuel
  {
    var e := Steer(tokenize, sampler, callback, s, fuel).last;
    if !s.directive.Complete? && fuel > 0 {
      var n := Iterate(tokenize, sampler, callback, s);
      ResponseOnlyGrows(tokenize, sampler, callback, n, fuel - 1);
      assert n.ret[..|s.ret|] == s.ret;
      assert e.ret[..|n.ret|][..|s.ret|] == e.ret[..|s.ret|];
    }
  }

  /** Forcing text puts it, after a space, into the response, and nothing
      the callback does later (short of a rewind) takes it out. */
  lemma ForcedTextIsKept(tokenize: Tokenizer, sampler: Sampler, callback: Callback, s: LoopState, fuel: nat)
    requires NeverReverses(callback)
    requires s.directive.Force? && fuel > 0
    ensures Occurs(" " + s.directive.text, Steer(tokenize, sampler, callback, s, fuel).last.ret)
  {
    var n := Iterate(tokenize, sampler, callback, s);
    var e := Steer(tokenize, sampler, callback, n, fuel - 1).last;
    ResponseOnlyGrows(tokenize, sampler, callback, n, fuel - 1);
    OccursAfter(s.ret, " " + s.directive.text, e.ret);
  }

  /** `x` occurs in any string that starts with `p + x`. */
  lemma {:induction false} OccursAfter(p: string, x: string, t: string)
    requires IsPrefix(p + x, t)
    ensures Occurs(x, t)
    decreases |p|
  {
    if p == [] {
      assert t[..|x|] == (p + x)[..|x|];
    } else {
      assert (p + x)[1..] == p[1..] + x;
      assert t[1..][..|p| - 1 + |x|] == t[..|p + x|][1..];
      OccursAfter(p[1..], x, t[1..]);
    }
  }
}
