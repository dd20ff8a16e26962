/** The restricted modes miss qualifying drops. Window forcing (app.js:80-83)
    moves the running high to index `i - days + 1` rather than to the highest
    price of the window, and raising the high (app.js:74-77) can carry it
    past the one index an 'exact' pair needs. `GetMaxLossIntended` searches
    every qualifying pair instead. */
module Findings {
  import opened Types
  import opened Spec
  import opened Scan
  import opened MaxLoss
  import Unrestricted

  /** Prices at `j` and `k` form a drop the restriction admits. */
  ghost predicate Qualifies(v: seq<int>, mode: Mode, days: Option<int>, j: int, k: int) {
    0 <= j < k < |v| && Meets(mode, days, k - j) && v[j] > v[k]
  }

  /** The largest qualifying drop into index `k` from a high below `m`;
      among equal drops the earliest high. */
  function BestInto(v: seq<int>, mode: Mode, days: Option<int>, k: int, m: int): (r: Option<Loss>)
    requires 0 <= m <= k < |v|
    ensures r.Some? ==> Consistent(v, r.value) && r.value.lowIndex == k && r.value.highIndex < m
    ensures r.Some? ==> Meets(mode, days, k - r.value.highIndex)
    ensures forall j {:trigger Qualifies(v, mode, days, j, k)} :: j < m && Qualifies(v, mode, days, j, k) ==>
              r.Some? && v[j] - v[k] <= r.value.loss
    decreases m
  {
    if m == 0 then None
    else
      var rest := BestInto(v, mode, days, k, m - 1);
      var j := m - 1;
      if Meets(mode, days, k - j) && v[j] > v[k] && (rest.None? || v[j] - v[k] > rest.value.loss) then
        Some(Loss(v[j] - v[k], v[j], v[k], j, k))
      else
        rest
  }

  /** The largest qualifying drop whose low lies below `n`; among equal
      drops the earliest low. */
  function BestPair(v: seq<int>, mode: Mode, days: Option<int>, n: int): (r: Option<Loss>)
    requires 0 <= n <= |v|
    ensures r.Some? ==> Consistent(v, r.value) && r.value.lowIndex < n
    ensures r.Some? ==> Meets(mode, days, r.value.lowIndex - r.value.highIndex)
    ensures forall j, k {:trigger Qualifies(v, mode, days, j, k)} :: k < n && Qualifies(v, mode, days, j, k) ==>
              r.Some? && v[j] - v[k] <= r.value.loss
    decreases n
  {
    if n == 0 then None
    else
      var rest := BestPair(v, mode, days, n - 1);
      var here := BestInto(v, mode, days, n - 1, n - 1);
      if here.Some? && (rest.None? || here.value.loss > rest.value.loss) then here else rest
  }

  /** The pairs `gap` steps apart that the caller's restriction admits. */
  ghost predicate Admits(restriction: Option<string>, days: Days, gap: int) {
    && (restriction == Some("exact") ==> days.Number? && gap == days.n)
    && (restriction == Some("less") ==> days.Number? && gap <= days.n)
  }

  /** `getMaxLoss` with the evidently intended restricted search: the same
      validation, then the largest drop among the pairs the restriction
      admits. A loss is found exactly when some admitted pair drops, and no
      admitted pair drops more. */
  function GetMaxLossIntended(data: Option<seq<int>>, restriction: Option<string>, days: Days): (r: Outcome)
    ensures r.IsArgumentError() <==> !AcceptedArguments(data, restriction, days)
    ensures !r.IsArgumentError() ==> r.Found? || r.NotFound?
    ensures r.Found? ==> data.Some? && Consistent(data.value, r.result)
    ensures r.Found? ==> Admits(restriction, days, r.result.lowIndex - r.result.highIndex)
    ensures !r.IsArgumentError() ==>
              forall j, k :: 0 <= j < k < |data.value| && Admits(restriction, days, k - j) && data.value[j] > data.value[k] ==>
                r.Found? && data.value[j] - data.value[k] <= r.result.loss
  {
    match CheckArguments(data, restriction, days)
    case Rejected(error) => error
    case Accepted(v, mode, d) =>
      var best := BestPair(v, mode, d, |v|);
      AdmittedPairsQualify(restriction, days, v, mode, d);
      if best.Some? then Found(best.value) else NotFound
  }

  /** After validation, a pair the caller's restriction admits is a pair
      the search considers. */
  lemma AdmittedPairsQualify(restriction: Option<string>, days: Days, v: seq<int>, mode: Mode, d: Option<int>)
    requires CheckArguments(Some(v), restriction, days) == Accepted(v, mode, d)
    ensures forall j, k :: 0 <= j < k < |v| && Admits(restriction, days, k - j) && v[j] > v[k] ==>
              Qualifies(v, mode, d, j, k)
  {
    forall j, k | 0 <= j < k < |v| && Admits(restriction, days, k - j) && v[j] > v[k]
      ensures Qualifies(v, mode, d, j, k)
    {
      match mode
      case Unrestricted =>
      case Exact => assert restriction == Some("exact");
      case Less => assert restriction == Some("less");
    }
  }

  /** As written, 'exact' with `days == 2` on prices 1, 2, 0 finds nothing:
      the high moves to index 1 at app.js:74-77, so the pair 0 -> 2, exactly
      two steps apart and dropping by 1, is never compared. */
  lemma ExactMissesPair()
    ensures GetMaxLoss(Some([1, 2, 0]), Some("exact"), Number(2)) == NotFound
    ensures Qualifies([1, 2, 0], Exact, Some(2), 0, 2)
  {
    var w := [1, 2, 0];
    NamedRestrictionAccepted(w, 2);
    ExactScanMisses();
  }

  /** The scan of 1, 2, 0 with 'exact' and `days == 2` records nothing. */
  lemma ExactScanMisses()
    ensures Scanned([1, 2, 0], Exact, Some(2)) == None
  {
    var w := [1, 2, 0];
    assert ScanTo(w, Exact, Some(2), 2) == ScanState(0, 0, 1, 1, 2, None);
  }

  /** As written, 'less' with `days == 2` on prices 2, 1, 2, 0 reports the
      drop 2 -> 1 of 1: at index 2 the window forcing moves the high to
      index 1 (price 1), so the drop of 2 from index 2 to index 3 is missed. */
  lemma LessMissesLargerDrop()
    ensures GetMaxLoss(Some([2, 1, 2, 0]), Some("less"), Number(2)) == Found(Loss(1, 2, 1, 0, 1))
    ensures Qualifies([2, 1, 2, 0], Less, Some(2), 2, 3)
  {
    NamedRestrictionAccepted([2, 1, 2, 0], 2);
    LessScan();
  }

  /** The scan of 2, 1, 2, 0 with 'less' and `days == 2` keeps its first result. */
  lemma LessScan()
    ensures Scanned([2, 1, 2, 0], Less, Some(2)) == Some(Loss(1, 2, 1, 0, 1))
  {
    var w := [2, 1, 2, 0];
    assert ScanTo(w, Less, Some(2), 2) == ScanState(1, 1, 1, 0, 2, Some(Loss(1, 2, 1, 0, 1)));
    assert ScanTo(w, Less, Some(2), 3) == ScanState(1, 1, 1, 1, 1, Some(Loss(1, 2, 1, 0, 1)));
  }

  /** On the inputs above the intended search finds the drops the scan
      misses: at least 1 for 'exact' on 1, 2, 0. */
  lemma IntendedFindsExactPair()
    ensures GetMaxLossIntended(Some([1, 2, 0]), Some("exact"), Number(2)).Found?
    ensures GetMaxLossIntended(Some([1, 2, 0]), Some("exact"), Number(2)).result.loss >= 1
  {
    var w := [1, 2, 0];
    assert AcceptedArguments(Some(w), Some("exact"), Number(2));
    assert Admits(Some("exact"), Number(2), 2 - 0) && w[0] > w[2];
  }

  /** ... and at least 2 for 'less' on 2, 1, 2, 0. */
  lemma IntendedFindsLargerDrop()
    ensures GetMaxLossIntended(Some([2, 1, 2, 0]), Some("less"), Number(2)).Found?
    ensures GetMaxLossIntended(Some([2, 1, 2, 0]), Some("less"), Number(2)).result.loss >= 2
  {
    var u := [2, 1, 2, 0];
    assert AcceptedArguments(Some(u), Some("less"), Number(2));
    assert Admits(Some("less"), Number(2), 3 - 2) && u[2] > u[3];
  }

  /** Without a restriction the intended search and the scan as written
      agree on whether a loss exists and on its size. */
  lemma IntendedAgreesUnrestricted(v: seq<int>, days: Days)
    requires AcceptedArguments(Some(v), None, days)
    ensures GetMaxLossIntended(Some(v), None, days).Found? == GetMaxLoss(Some(v), None, days).Found?
    ensures GetMaxLoss(Some(v), None, days).Found? ==>
              GetMaxLossIntended(Some(v), None, days).result.loss == GetMaxLoss(Some(v), None, days).result.loss
  {
    Unrestricted.UnrestrictedOptimal(v, days);
    var a := GetMaxLossIntended(Some(v), None, days);
    var b := GetMaxLoss(Some(v), None, days);
    if a.Found? {
      assert v[a.result.highIndex] > v[a.result.lowIndex];
    }
    if b.Found? {
      assert Admits(None, days, b.result.lowIndex - b.result.highIndex);
    }
  }
}
