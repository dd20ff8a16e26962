/** The order in which `getMaxLoss` rejects its arguments (app.js:11-27). */
module Arguments {
  import opened Types
  import opened MaxLoss

  /** Missing prices win over everything; a single price wins over a bad
      restriction or bad `days`; a bad restriction wins over bad `days`; and
      `days` below one is refused even when no restriction is given. */
  lemma ValidationOrder(data: Option<seq<int>>, restriction: Option<string>, days: Days)
    ensures data.None? ==> GetMaxLoss(data, restriction, days) == NoData
    ensures data.Some? && |data.value| <= 1 ==> GetMaxLoss(data, restriction, days) == InsufficientData
    ensures data.Some? && |data.value| >= 2 && !Recognised(restriction) ==>
              GetMaxLoss(data, restriction, days) == InvalidRestriction
    ensures data.Some? && |data.value| >= 2 && Recognised(restriction) ==>
              (days.NonNumeric? <==> GetMaxLoss(data, restriction, days) == DaysNotNumeric)
    ensures data.Some? && |data.value| >= 2 && Recognised(restriction) ==>
              (days.Number? && days.n < 1 <==> GetMaxLoss(data, restriction, days) == DaysBelowOne)
  {
  }

  /** Validation happens before any price is read: two price sequences of
      the same length are rejected alike. */
  lemma RejectionIgnoresPrices(v: seq<int>, w: seq<int>, restriction: Option<string>, days: Days)
    requires |v| == |w|
    ensures GetMaxLoss(Some(v), restriction, days).IsArgumentError() ==>
              GetMaxLoss(Some(v), restriction, days) == GetMaxLoss(Some(w), restriction, days)
  {
  }
}
