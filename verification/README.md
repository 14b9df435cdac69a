# Driver profit calculator — Dafny model

A model of the core of a ride-share driver's profit calculator. A shift is
described by five figures: gross earnings, kilometres driven, hours worked,
fuel price and fuel efficiency. From these the page derives fuel cost, a
fixed maintenance reserve of 0.50 per km, total expenses, net profit and the
effective hourly wage. It can also ask an external text-generation service
for advice and display the answer with a minimal `**bold**` markup.

Modules, one per concern of `App.tsx` and `types.ts`:

- `Types` (`types.dfy`): the input record, the result record, the four-phase
  loading state, and `Option` for the source's `null`.
- `Calculator` (`calculator.dfy`): `calculate`, the maintenance rate and the
  opening form values. The result is characterised by a division-free
  `Ledger` relation. `LedgerDeterminesResult` shows that this relation has
  exactly one solution and that it is the calculator's answer.
- `InputFields` (`input_fields.dfy`): `handleInputChange`. JavaScript's
  `parseFloat` is a parameter `parse: string -> Option<real>`, where `None`
  stands for NaN.
- `Advisor` (`advisor.dfy`): `handleAnalyze`, split at its `await` into
  `StartAnalysis` and `ResolveAnalysis`. The service call is an oracle
  `Outcome = Delivered(text) | Failed`.
- `Text` (`text.dfy`): the two JavaScript string operations the renderer
  uses, `split` with a non-empty separator and `trim` with ECMAScript's
  whitespace set. It also defines `Join`, the model's inverse of `split`.
  The renderer never calls `join`; `Join` is used only to state the
  round-trip lemmas.
- `Markup` (`markup.dfy`): how the advice text is rendered, line by line and
  `**` piece by piece, and which panel the advice area shows in each phase.
- `App` (`app.dfy`): the whole page as a state machine with three kinds of
  event (edit a field, press analyse, the pending call returns). Its
  invariant says the shown result is never stale and that advice text is
  held exactly in the success phase.

All arithmetic is over `real`. Recalculation after an edit happens
synchronously, within the same step. `Calculate` is a Dafny function, so it
is deterministic: equal inputs give equal results. The shown result is
never stale: `App.Invariant` includes `results == Calculate(inputs)`, and
`App.RunKeepsInvariant` proves it for every reachable page state.

Negative hours still produce a result, with the hourly wage set to 0
(App.tsx:48 and App.tsx:58). `Calculator.Calculate` does the same.

## Model

| member | source | states |
|---|---|---|
| Calculator.FuelCost | App.tsx:53-54 | with positive efficiency, fuel cost times efficiency equals kilometres times fuel price; with zero or negative efficiency, fuel cost is 0 |
| Calculator.Calculate | App.tsx:45-67 | there is no result exactly when hours are 0; otherwise the result satisfies the `Ledger` bookkeeping, so negative hours still give a result, with wage 0 |
| Calculator.LedgerDeterminesResult | App.tsx:53-58 | for nonzero hours, a record is the calculator's answer if and only if it balances the ledger: fuel, maintenance at 0.50/km, expenses = fuel + maintenance, profit + expenses = earnings, wage × hours = profit (wage 0 for negative hours) |
| Calculator.HourlyWageFormula | App.tsx:53-58 | for positive hours, wage = (earnings − fuel cost − km × 0.50) / hours |
| Calculator.WageSignFollowsProfit | App.tsx:57-58 | for positive hours, the wage is negative (zero) exactly when the net profit is negative (zero) |
| Calculator.ScenarioTypicalShift | App.tsx:53-58 | 200 earned, 100 km, 8 h, 5.80/l, 10 km/l gives fuel 58, maintenance 50, expenses 108, profit 92, wage 11.5 |
| Calculator.ScenarioZeroEfficiency | App.tsx:53-58 | 0 earned, 50 km, 4 h, 5.00/l, efficiency 0 gives fuel 0, maintenance 25, profit −25, wage −6.25 |
| Calculator.InitialInputsHaveNoResult | App.tsx:18-24 | the opening form (0 hours) has no result |
| InputFields.Set | App.tsx:38-41 | the chosen field reads back as the new value, and every other field keeps its value |
| InputFields.ParsedOrZero | App.tsx:40 | a NaN parse gives 0; any parsed number is kept, so a zero parse gives 0 |
| InputFields.HandleInputChange | App.tsx:37-41 | the edited field becomes the parsed number, or 0; every other field is unchanged |
| InputFields.FieldsDetermineRecord | types.ts:1-7 | two input records with equal fields are equal, so the frame property above leaves the record otherwise identical |
| InputFields.EditIsIdempotent | App.tsx:37-41 | typing the same text into the same field twice equals doing it once |
| InputFields.EditsCommute | App.tsx:37-41 | edits to two different fields give the same record in either order |
| InputFields.ReenteringValueIsNoChange | App.tsx:37-41 | re-entering text that parses to the field's current value leaves the record unchanged |
| Text.FindFrom | App.tsx:266 | returns the leftmost occurrence of the separator at or after the start point, or none when there is no occurrence |
| Text.Split | App.tsx:261-266 | `split` returns at least one piece; no piece contains the separator; every cut is at the leftmost occurrence, since no occurrence starts inside a piece and runs into the separator after it |
| Text.JoinSplit | App.tsx:266 | joining the pieces of a split with the separator gives back the original text |
| Text.SplitJoin | App.tsx:261 | with a one-character separator absent from every piece, splitting the joined text recovers the pieces |
| Text.TrimStart | App.tsx:262 | the result is a suffix of the input, everything dropped is whitespace, and the result does not start with whitespace |
| Text.TrimEnd | App.tsx:262 | the result is a prefix of the input, everything dropped is whitespace, and the result does not end with whitespace |
| Text.Trim | App.tsx:262 | the result is the slice of the line left after dropping whitespace at both ends, and it neither starts nor ends with whitespace |
| Text.TrimEmptyIffBlank | App.tsx:262-263 | a line trims to empty exactly when all of its characters are whitespace |
| Markup.Emphasize | App.tsx:269-271 | segment texts are the split pieces in order, and a segment is bold exactly at odd indices |
| Markup.RenderLine | App.tsx:262-272 | a whitespace-only line is a break; any other line is a paragraph whose segment texts are exactly the pieces of the line split on `**`, starting plain, alternating plain and bold, with no marker inside a segment |
| Markup.RenderAdvice | App.tsx:261-274 | one block per newline-separated line, each rendered by the line rule |
| Markup.ParagraphRoundTrip | App.tsx:266-271 | joining a paragraph's segment texts with `**` reproduces the untrimmed line |
| Markup.AdviceRoundTrip | App.tsx:261 | the lines contain no newline and rejoin to the advice text |
| Markup.UnmarkedLineIsPlain | App.tsx:262-271 | a non-blank line without `**` renders as a single plain segment |
| Markup.AdvicePanel | App.tsx:233-276 | the prompt shows exactly when idle, the spinner exactly while pending, the error notice exactly after a failure, and the rendered advice exactly in the success phase with non-empty text; the panel is blank only in the success phase |
| Markup.PanelBlankOnlyForEmptyText | App.tsx:258 | in a consistent state, the panel is blank exactly when the service delivered an empty text |
| Markup.MarkerSplitExample | App.tsx:266 | `"a **b**"` splits on `**` into `"a "`, `"b"`, `""` |
| Markup.RenderBoldExample | App.tsx:266-271 | `"a **b**"` renders as plain `"a "`, bold `"b"`, plain `""` |
| Advisor.StartAnalysis | App.tsx:76-79 | without a result nothing changes; with one the request is pending and the text is cleared |
| Advisor.ResolveAnalysis | App.tsx:81-87 | a delivered text gives success with that text; a failure gives error and keeps the text |
| Advisor.TransitionsKeepConsistent | App.tsx:75-88 | starting always keeps text-in-success-only consistency; resolving keeps it when a request was pending |
| Advisor.PendingExits | App.tsx:81-87 | from a pending request the only exits are success with exactly the delivered text, or error with no text |
| Advisor.RestartForgetsHistory | App.tsx:75-88 | a new analysis from any earlier state goes through the same pending state and ends the same for the same outcome |
| App.AnalyzeEnabled | App.tsx:221-224 | the button is usable only with a result, positive earnings and no pending request; on a page with an up-to-date result, exactly when hours are nonzero, earnings are positive and no request is pending |
| App.Step | App.tsx:69-88 | an edit sets the form to exactly the field update of `handleInputChange` and leaves the advice state alone; a press on a hidden or disabled button changes nothing, and an enabled press makes the request pending with no text; an arrival while pending resolves the request, and an arrival with nothing pending changes nothing; a press or an arrival leaves the form and the result alone |
| App.InitialAppValid | App.tsx:18-34 | the opening page has no result and satisfies the page invariant |
| App.StepKeepsInvariant | App.tsx:69-88 | every event keeps the result equal to the calculation of the current form, and keeps advice text only in the success phase |
| App.RunKeepsInvariant | App.tsx:69-88 | any sequence of events keeps the page invariant |
| App.PendingLeavesOnlyByArrival | App.tsx:221-227 | while pending, a press on the disabled button is ignored, and the page leaves the pending phase only when the call returns: success with its text, or error with no text |
| App.NoResultNoAnalysis | App.tsx:76 | with 0 hours there is no result, and pressing analyse changes nothing |
| App.AnalyzeRestartsFromSettled | App.tsx:75-79 | from idle, success or error, an enabled press moves to pending with no text and keeps the form and the result |
| App.EditRecalculates | App.tsx:69-72 | after an edit, the result is the calculation of the edited form, the advice state is unchanged, and the edited field holds the parsed value |

## Left out

- The advice service (`services/geminiService.ts`) is not part of this model: prompt text, model name, API-key check and the fallback answer for an empty reply. The service is the oracle `Advisor.Outcome`, and a missing key is just one way of getting `Failed`.
- Floating point: all arithmetic is exact over `real`, so IEEE-754 rounding, NaN and Infinity are not modelled. `toFixed` and `toLocaleString` formatting is left out too.
- `parseFloat` is a parameter. What it accepts (leading whitespace, trailing junk, `Infinity`) is not modelled. Negative zero does not exist over `real`.
- Layout, styling, icons, the `InputField` and `ResultCard` components, and the colour thresholds on the result cards: these are presentation only.
- React scheduling: hooks, re-renders and the effect run are collapsed into synchronous steps. The inputs and result that the in-flight request captured are not tracked, because the oracle's answer is free anyway.
- App.Step: an arrival when no request is pending is ignored. The disabled button allows at most one request in flight, and only its continuation leaves the pending phase, so such an arrival cannot happen.
- Text.Split: requires a non-empty separator. JavaScript's character-by-character split on `""` is never used by the renderer, which splits only on `"\n"` and `"**"`.
- Text.SplitJoin: proved only for one-character separators. For `"**"` it fails: the pieces `"a*"` and `"b"` join to `"a***b"`, which splits into `"a"` and `"*b"`.
- JavaScript strings are UTF-16 code-unit sequences. Here a string is a sequence of Unicode scalar values.
