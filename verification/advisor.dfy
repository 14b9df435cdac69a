/** The advice lifecycle driven by `handleAnalyze` (App.tsx). The call to the
    text-generation service is an oracle: it either delivers a text or fails,
    and nothing else about it is modelled. The async function is split at
    its one `await` into two transitions, `StartAnalysis` (everything before
    the call) and `ResolveAnalysis` (everything after it returns). */
module Advisor {
  import opened Types

  /** What the advice service hands back to the page. */
  datatype Outcome = Delivered(text: string) | Failed

  /** The page's `aiState` together with its `advice` text. */
  datatype AdviceState = AdviceState(phase: LoadingState, advice: Option<string>)

  /** Both pieces of state as the page first renders them. */
  const InitialAdvice := AdviceState(Idle, None)

  /** Text is held exactly in the success phase: no success without text and
      no stale text beside a spinner, an error or the idle prompt. */
  predicate Consistent(a: AdviceState) {
    a.advice.Some? <==> a.phase == Success
  }

  /** A terminal phase is one in which no request is outstanding. */
  predicate Settled(a: AdviceState) {
    a.phase != Loading
  }

  /** `handleAnalyze` up to the `await`: without a calculation result nothing
      happens; otherwise the request is pending and the previous text is
      cleared, whatever the state was before. */
  function StartAnalysis(a: AdviceState, results: Option<CalculationResult>): (b: AdviceState)
    ensures results.None? ==> b == a
    ensures results.Some? ==> !Settled(b) && Consistent(b)
  {
    if results.None? then a else AdviceState(Loading, None)
  }

  /** `handleAnalyze` after the `await`: a delivered text is stored and
      shown as success; a failure shows the error and leaves the text alone. */
  function ResolveAnalysis(a: AdviceState, outcome: Outcome): (b: AdviceState)
    ensures Settled(b)
    ensures outcome.Delivered? ==> b.phase == Success && b.advice == Some(outcome.text)
    ensures outcome.Failed? ==> b.phase == Error && b.advice == a.advice
  {
    match outcome
    case Delivered(text) => AdviceState(Success, Some(text))
    case Failed => a.(phase := Error)
  }

  /** Both transitions keep text and phase consistent, provided a result is
      only ever resolved while its request is pending. */
  lemma TransitionsKeepConsistent(a: AdviceState, results: Option<CalculationResult>, outcome: Outcome)
    requires Consistent(a)
    ensures Consistent(StartAnalysis(a, results))
    ensures !Settled(a) ==> Consistent(ResolveAnalysis(a, outcome))
  {
  }

  /** The only ways out of a pending request: success carrying exactly the
      delivered text, or an error with no text. */
  lemma PendingExits(a: AdviceState, outcome: Outcome)
    requires Consistent(a) && a.phase == Loading
    ensures var b := ResolveAnalysis(a, outcome);
      || (outcome.Delivered? && b == AdviceState(Success, Some(outcome.text)))
      || (outcome.Failed? && b == AdviceState(Error, None))
  {
  }

  /** A full analysis started with a result ends in a state that depends
      only on the outcome: any earlier phase or text is forgotten, so a new
      request from success, error or idle behaves the same. */
  lemma RestartForgetsHistory(a1: AdviceState, a2: AdviceState, r: CalculationResult, outcome: Outcome)
    ensures StartAnalysis(a1, Some(r)) == StartAnalysis(a2, Some(r)) == AdviceState(Loading, None)
    ensures ResolveAnalysis(StartAnalysis(a1, Some(r)), outcome)
         == ResolveAnalysis(StartAnalysis(a2, Some(r)), outcome)
  {
  }
}
