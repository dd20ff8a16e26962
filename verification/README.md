# MaxLoser `getMaxLoss` in Dafny

MaxLoser loads a stock's daily adjusted closing prices and reports the
largest loss: the biggest drop from an earlier price (the high) to a later
one (the low). The caller can restrict the pair to prices exactly `days`
apart (`'exact'`) or at most `days` apart (`'less'`). All of the logic is in
`getMaxLoss` (app.js:10-90). It validates its arguments, then makes one
forward pass. The pass keeps a running high, a running low and the best loss
so far. In a restricted mode it also forces the running high back into a
window.

This project models that function and proves properties of the model:

- `types.dfy` (`Types`): the arguments and the outcome. The outcome covers
  the returned messages, the thrown errors and the result object.
- `spec.dfy` (`Spec`): reference definitions over all index pairs. They
  define a genuine drop, the first-found largest drop, and the first-found
  largest one-step drop.
- `scan.dfy` (`Scan`): the loop, with one function per block of its body
  (`Falling`, `Rising`, `RaiseHigh`, `ForceWindow`). `Step` runs them in
  source order. `ScanTo(v, mode, days, n)` is the state at the loop head
  when `i == n`.
- `max_loss.dfy` (`MaxLoss`): argument validation (`CheckArguments`) and
  `GetMaxLoss` itself.
- `scan_facts.dfy`, `arguments.dfy`, `unrestricted.dfy`, `restricted.dfy`:
  the properties.
- `findings.dfy` (`Findings`): the restricted modes miss qualifying drops,
  with a corrected search proved optimal.
- `scenarios.dfy` (`Scenarios`): two worked runs.

Inputs are modelled as follows:

- The price store becomes `Option<seq<int>>`; `None` is missing data.
- The restriction becomes `Option<string>`; `None` is `undefined`.
- `days` is `Undefined`, `Number(n)`, or `NonNumeric` (a value
  `Ext.isNumeric` rejects).

After validation the scan sees a `Mode` (`Unrestricted | Exact | Less`) and
`days` as `Option<int>`. In JavaScript a comparison with an undefined `days`
is false. So a restricted mode without `days` admits no pair and never moves
the running high at app.js:80-83.

The rising branch (app.js:57-73) is modelled exactly as written and proved
dead. `lastLowIndex` is only ever set to `i` (app.js:48), so the guard
`i < lastLowIndex` at app.js:62 never holds.

## Model

| member | source | states |
|---|---|---|
| `Scan.ForceWindow` | app.js:80-83 | Window forcing either leaves the state alone or moves the running high to an index in `[1, i]`, re-reading its price there. It never touches the result, `maxLoss` or the running low. |
| `ScanFacts.RisingIsDead` | app.js:45-73 | When the tracked low lies before `i`, the falling branch leaves it at or before `i` and keeps the running high. The rising branch's guard `i < lastLowIndex` is then false, so that branch is the identity. |
| `ScanFacts.StepSane` | app.js:40-83 | One iteration keeps the loop invariant: high and low are prices already read, and `maxLoss` is zero with no result or is the loss of the result. The result is a genuine drop that meets the restriction. |
| `ScanFacts.ScanSane` | app.js:29-84 | The invariant holds at every loop head, and `lastHighValue == v[lastHighIndex]` throughout. |
| `ScanFacts.RisingNeverFires` | app.js:57-73 | In every iteration of an actual scan the rising branch changes nothing. The running high moves only at app.js:74-77 and app.js:80-83. |
| `MaxLoss.CheckArguments` | app.js:11-27 | Arguments are rejected, always with an argument error, exactly when they are unacceptable: missing data, fewer than two prices, an unknown restriction, a non-numeric `days`, or a `days` below one. Accepted arguments carry the prices, the mode named by the restriction, and `days`. |
| `MaxLoss.Scanned` | app.js:39-89 | The result of a full scan, when present, is a genuine drop whose index distance meets the restriction. |
| `MaxLoss.GetMaxLoss` | app.js:10-90 | An argument error is returned exactly when the arguments are unacceptable; otherwise the outcome is a loss or "no loss found". A found loss has `highIndex < lowIndex` and `high`/`low` read from the prices. Its `loss == high - low > 0`. `'exact'` results are exactly `days` apart and `'less'` results at most `days` apart. |
| `MaxLoss.NamedRestrictionAccepted` | app.js:17-27 | Two or more prices with `'exact'` or `'less'` and `days >= 1` pass validation and are scanned in that mode. |
| `Arguments.ValidationOrder` | app.js:11-27 | Missing data wins over everything. One price gives `InsufficientData` whatever the restriction and `days`. A bad restriction wins over a bad `days`. A `days` below one is refused even with no restriction. |
| `Arguments.RejectionIgnoresPrices` | app.js:11-27 | Rejection depends only on the number of prices, never on their values. |
| `Unrestricted.StepInv` | app.js:40-77 | An unrestricted iteration keeps the optimality invariant. The running high is the earliest maximum so far, `maxLoss` bounds every drop so far, and the result was reached first. |
| `Unrestricted.ScanInv` | app.js:39-84 | The optimality invariant holds at every loop head of an unrestricted scan. |
| `Unrestricted.UnrestrictedOptimal` | app.js:39-89 | With no restriction, a loss is found iff some price is above a later one, and the loss is the largest drop over all pairs. Strict comparisons make `lowIndex` the first index reaching that drop. `highIndex` is the earliest maximum before it. |
| `Unrestricted.NonDecreasingNotFound` | app.js:85-89 | A non-decreasing sequence gives "no loss found". |
| `Unrestricted.EarliestMaxLossUnique` | app.js:45-55 | Only one result satisfies the first-found-largest-drop description, so the unrestricted outcome is determined by the prices. |
| `Unrestricted.DaysIrrelevantToScan` | app.js:43-44 | Without a restriction the scan state does not depend on `days`. |
| `Unrestricted.DaysIgnoredWithoutRestriction` | app.js:20-27 | A valid `days` with no restriction gives the same outcome as no `days`. |
| `Restricted.WindowBounds` | app.js:80-83 | In a restricted scan with `days >= 1`, every loop head has `1 <= i - lastHighIndex <= days`. |
| `Restricted.RestrictedWithoutDaysNotFound` | app.js:43-44 | `'exact'` or `'less'` with `days` undefined gives "no loss found". |
| `Restricted.RestrictedNoWorse` | app.js:43-45 | When `'exact'` or `'less'` finds a loss, the unrestricted call finds one at least as large. |
| `Restricted.StepKeepsStepInv` | app.js:40-83 | With `days == 1`, an iteration keeps the running high on the previous price, and the result stays the first largest one-step drop. |
| `Restricted.SingleDay` | app.js:43-45 | With `days == 1`, `'exact'` and `'less'` find a loss iff some price is above the next. The loss found is the first largest one-step drop. |
| `Restricted.StepDeclineIffDecline` | app.js:80-83 | A sequence has a drop iff it has a one-step drop. |
| `Restricted.SingleDayFindsIffUnrestricted` | app.js:80-83 | With `days == 1`, a restricted call finds a loss iff the unrestricted call does. |
| `Findings.ExactMissesPair` | app.js:74-83 | As written, `'exact'` with `days == 2` on prices 1, 2, 0 gives "no loss found". Yet prices 0 and 2 are exactly two apart and drop by 1. |
| `Findings.LessMissesLargerDrop` | app.js:80-83 | As written, `'less'` with `days == 2` on prices 2, 1, 2, 0 reports a loss of 1. Yet prices 2 and 3 are one apart and drop by 2. |
| `Findings.BestPair` | app.js:43-45 | The corrected search returns a genuine admitted drop no smaller than any admitted drop before `n`. |
| `Findings.GetMaxLossIntended` | app.js:10-90 | The corrected function validates the same way. It finds a loss iff some admitted pair drops, and no admitted pair drops more. |
| `Findings.IntendedFindsExactPair` | app.js:43-45 | On prices 1, 2, 0 with `'exact'` and `days == 2`, the corrected search finds a loss of at least 1. |
| `Findings.IntendedFindsLargerDrop` | app.js:43-45 | On prices 2, 1, 2, 0 with `'less'` and `days == 2`, the corrected search finds a loss of at least 2. |
| `Findings.IntendedAgreesUnrestricted` | app.js:39-89 | Without a restriction, the corrected search and the scan as written agree on whether a loss exists and on its size. |
| `Scenarios.UnrestrictedRun` | app.js:39-89 | Prices 10, 8, 9, 4, 12 with no restriction give loss 6, from 10 at index 0 to 4 at index 3. |
| `Scenarios.ExactRun` | app.js:39-89 | The same prices with `'exact'` and `days == 2` give loss 4, from 8 at index 1 to 4 at index 3. |

## Left out

- The ExtJS application around the function is not modelled: the `Stock`
  model, the Ajax store and its load callback, the chart, the result message
  formatting, and the window, buttons and text field (app.js:94-251). It is
  presentation and I/O with no behaviour of its own to state.
- Prices are exact integers. The source subtracts and compares JavaScript
  floating-point numbers; rounding is not modelled.
- `days` is a whole number, or undefined, or non-numeric. In the source it
  arrives as a string from a text field and is coerced by `-`, `<`, `<=` and
  `==`. A fractional numeric `days` is not modelled, because the source would
  then read the store at a fractional index (app.js:82). A `null`
  restriction is not modelled either.
- Exceptions and returned messages are one outcome datatype. The message
  texts are not modelled.
- `Restricted.SingleDay` and the other restricted lemmas claim soundness and
  the `days == 1` behaviour only. The restricted modes are not optimal in
  general (see Findings).
- Idempotence is not stated as a lemma: `GetMaxLoss` is a pure function, so
  two calls with equal arguments are equal by definition.

## Findings

| source | as written | input that shows it | evidently intended | confidence | as-written member | corrected member |
|---|---|---|---|---|---|---|
| app.js:74-83 | In `'exact'` mode, a higher price moves the running high forward (app.js:74-77). The high is then never re-anchored `days` back, so a pair exactly `days` apart can go uncompared. | prices 1, 2, 0, `'exact'`, `days = 2`: "No loss found", although 1 -> 0 is two apart | the largest drop among pairs exactly `days` apart | medium; not executed | `Findings.ExactMissesPair` | `Findings.GetMaxLossIntended` |
| app.js:80-83 | In `'less'` mode, window forcing sets the running high to the price at `i - days + 1`, not to the highest price in the window. | prices 2, 1, 2, 0, `'less'`, `days = 2`: loss 1 (2 -> 1), although 2 -> 0 at indices 2, 3 drops 2 | the largest drop among pairs at most `days` apart | medium; not executed | `Findings.LessMissesLargerDrop` | `Findings.GetMaxLossIntended` |

`GetMaxLossIntended` keeps the validation of `GetMaxLoss`. It replaces the
scan with a search over every admitted pair (`BestPair`). Without a
restriction it agrees with the scan as written
(`Findings.IntendedAgreesUnrestricted`). The rest of the model describes
the code as written, because that is the behaviour users get.
