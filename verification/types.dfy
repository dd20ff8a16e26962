/** Arguments and outcomes of `getMaxLoss` (app.js:10-90). */
module Types {

  /** An argument that may be undefined in the caller. */
  datatype Option<+T> = None | Some(value: T)

  /** The restriction once it has been accepted: absent, 'exact' or 'less'. */
  datatype Mode = Unrestricted | Exact | Less

  /** The `days` argument as the caller passes it: undefined, a whole number,
      or something `Ext.isNumeric` rejects. */
  datatype Days = Undefined | Number(n: int) | NonNumeric

  /** The object built at app.js:49-55: a drop from `high` at `highIndex`
      to `low` at `lowIndex`. */
  datatype Loss = Loss(loss: int, high: int, low: int, highIndex: int, lowIndex: int)

  /** Everything `getMaxLoss` can return or throw. */
  datatype Outcome =
    | NoData               // app.js:12, a returned message
    | InsufficientData     // app.js:15, a returned message
    | InvalidRestriction   // app.js:18, thrown
    | DaysNotNumeric       // app.js:22, thrown
    | DaysBelowOne         // app.js:25, thrown
    | NotFound             // app.js:88, a returned message
    | Found(result: Loss)  // app.js:86
  {
    /** True for the outcomes caused by bad arguments rather than by the data's values. */
    predicate IsArgumentError() {
      NoData? || InsufficientData? || InvalidRestriction? || DaysNotNumeric? || DaysBelowOne?
    }
  }
}
