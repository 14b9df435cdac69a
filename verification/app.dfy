/** The page as a whole (App.tsx): the form, the derived result and the
    advice state, driven by three kinds of event. React's re-render and
    effect scheduling are collapsed into synchronous steps: an edit
    recomputes the result within the same step. */
module App {
  import opened Types
  import opened Calculator
  import opened InputFields
  import opened Advisor

  datatype AppState = AppState(inputs: DriverInputs, results: Option<CalculationResult>, ai: AdviceState)

  /** Something that can happen to the page: the driver types into a field,
      presses the analyse button, or the pending advice call returns. */
  datatype Event =
    | Edit(field: Field, raw: string)
    | ClickAnalyze
    | AdviceArrived(outcome: Outcome)

  /** The page as first rendered, after the mount-time calculation. */
  const InitialApp := AppState(InitialInputs, Calculate(InitialInputs), InitialAdvice)

  /** The analyse button is shown only with a result and positive earnings,
      and is disabled while a request is pending. On a page whose result is
      up to date, that means: hours entered, positive earnings, and no
      request outstanding. */
  predicate AnalyzeEnabled(s: AppState): (b: bool)
    ensures b ==> s.results.Some? && s.inputs.earnings > 0.0 && Settled(s.ai)
    ensures s.results == Calculate(s.inputs) ==>
      (b <==> s.inputs.hours != 0.0 && s.inputs.earnings > 0.0 && Settled(s.ai))
  {
    s.results.Some? && s.inputs.earnings > 0.0 && s.ai.phase != Loading
  }

  /** What the page guarantees after every step: the shown result is never
      stale, and advice text appears exactly in the success phase. */
  ghost predicate Invariant(s: AppState) {
    s.results == Calculate(s.inputs) && Consistent(s.ai)
  }

  /** One event. A press on a hidden or disabled button does nothing; an
      arrival is only acted on while a request is pending (the one request
      the disabled button allows). */
  function Step(s: AppState, e: Event, parse: string -> Option<real>): (t: AppState)
    ensures e.Edit? ==> t.ai == s.ai
    ensures !e.Edit? ==> t.inputs == s.inputs && t.results == s.results
    ensures e.Edit? ==> t.inputs == HandleInputChange(s.inputs, e.field, e.raw, parse)
    ensures e.ClickAnalyze? && !AnalyzeEnabled(s) ==> t == s
    ensures e.ClickAnalyze? && AnalyzeEnabled(s) ==> t.ai == AdviceState(Loading, None)
    ensures e.AdviceArrived? && s.ai.phase == Loading ==> t.ai == ResolveAnalysis(s.ai, e.outcome)
    ensures e.AdviceArrived? && s.ai.phase != Loading ==> t == s
  {
    match e
    case Edit(f, raw) =>
      var inputs := HandleInputChange(s.inputs, f, raw, parse);
      s.(inputs := inputs, results := Calculate(inputs))
    case ClickAnalyze =>
      if AnalyzeEnabled(s) then s.(ai := StartAnalysis(s.ai, s.results)) else s
    case AdviceArrived(outcome) =>
      if s.ai.phase == Loading then s.(ai := ResolveAnalysis(s.ai, outcome)) else s
  }

  /** Applies the events in order. */
  function Run(s: AppState, events: seq<Event>, parse: string -> Option<real>): AppState
    decreases |events|
  {
    if |events| == 0 then s else Run(Step(s, events[0], parse), events[1..], parse)
  }

  lemma InitialAppValid()
    ensures Invariant(InitialApp)
    ensures InitialApp.results == None
  {
  }

  lemma StepKeepsInvariant(s: AppState, e: Event, parse: string -> Option<real>)
    requires Invariant(s)
    ensures Invariant(Step(s, e, parse))
  {
  }

  /** Every state reachable from the opening page satisfies the invariant:
      no stale result, no advice text outside the success phase. */
  lemma {:induction false} RunKeepsInvariant(s: AppState, events: seq<Event>, parse: string -> Option<real>)
    requires Invariant(s)
    ensures Invariant(Run(s, events, parse))
    decreases |events|
  {
    if |events| > 0 {
      StepKeepsInvariant(s, events[0], parse);
      RunKeepsInvariant(Step(s, events[0], parse), events[1..], parse);
    }
  }

  /** While a request is pending, the page leaves the pending phase only
      through the returning call, into success with the delivered text or
      into error with no text; a press on the (disabled) button is ignored. */
  lemma PendingLeavesOnlyByArrival(s: AppState, e: Event, parse: string -> Option<real>)
    requires Invariant(s) && s.ai.phase == Loading
    ensures e.ClickAnalyze? ==> Step(s, e, parse) == s
    ensures Step(s, e, parse).ai.phase != Loading ==>
      && e.AdviceArrived?
      && (e.outcome.Delivered? ==> Step(s, e, parse).ai == AdviceState(Success, Some(e.outcome.text)))
      && (e.outcome.Failed? ==> Step(s, e, parse).ai == AdviceState(Error, None))
  {
  }

  /** With no hours entered there is no result, so pressing analyse changes
      nothing at all. */
  lemma NoResultNoAnalysis(s: AppState, parse: string -> Option<real>)
    requires Invariant(s) && s.inputs.hours == 0.0
    ensures Step(s, ClickAnalyze, parse) == s
  {
  }

  /** From idle, success or error, an enabled press restarts the lifecycle
      at the pending phase with no text, keeping form and result. */
  lemma AnalyzeRestartsFromSettled(s: AppState, parse: string -> Option<real>)
    requires Invariant(s) && s.results.Some? && s.inputs.earnings > 0.0 && Settled(s.ai)
    ensures Step(s, ClickAnalyze, parse) == s.(ai := AdviceState(Loading, None))
  {
  }

  /** An edit leaves the advice panel as it was, but the result shown next to
      it is the fresh calculation of the edited form. */
  lemma EditRecalculates(s: AppState, f: Field, raw: string, parse: string -> Option<real>)
    requires Invariant(s)
    ensures Step(s, Edit(f, raw), parse).results == Calculate(Step(s, Edit(f, raw), parse).inputs)
    ensures Step(s, Edit(f, raw), parse).ai == s.ai
    ensures Get(Step(s, Edit(f, raw), parse).inputs, f) == ParsedOrZero(parse(raw))
  {
  }
}
