/** `getMaxLoss` (app.js:10-90): argument validation followed by the scan. */
module MaxLoss {
  import opened Types
  import opened Spec
  import opened Scan
  import opened ScanFacts

  /** The result of validating the arguments: either the outcome the
      function gives up with, or the prices and the restriction to scan with. */
  datatype Checked =
    | Rejected(error: Outcome)
    | Accepted(v: seq<int>, mode: Mode, days: Option<int>)

  /** The restriction is undefined, 'exact' or 'less'. */
  predicate Recognised(restriction: Option<string>) {
    restriction.None? || restriction.value == "exact" || restriction.value == "less"
  }

  /** Arguments that get past app.js:11-27: prices are present and at least
      two, the restriction is undefined, 'exact' or 'less', and `days`, when
      defined, is a number no smaller than one. */
  ghost predicate AcceptedArguments(data: Option<seq<int>>, restriction: Option<string>, days: Days) {
    && data.Some? && |data.value| >= 2
    && Recognised(restriction)
    && !days.NonNumeric?
    && (days.Number? ==> days.n >= 1)
  }

  /** app.js:17: an undefined restriction means none; only 'exact' and
      'less' are recognised. */
  function ParseRestriction(restriction: Option<string>): Option<Mode> {
    match restriction
    case None => Some(Unrestricted)
    case Some(name) =>
      if name == "exact" then Some(Exact)
      else if name == "less" then Some(Less)
      else None
  }

  /** The checks of app.js:11-27, in source order. Only the length of the
      prices is looked at, never their values. */
  function CheckArguments(data: Option<seq<int>>, restriction: Option<string>, days: Days): (c: Checked)
    ensures c.Rejected? <==> !AcceptedArguments(data, restriction, days)
    ensures c.Rejected? ==> c.error.IsArgumentError()
    ensures c.Accepted? ==> data == Some(c.v) && |c.v| >= 2 && ValidDays(c.days)
    ensures c.Accepted? ==> (c.mode == Unrestricted <==> restriction.None?)
    ensures c.Accepted? ==> (c.mode == Exact <==> restriction == Some("exact"))
    ensures c.Accepted? ==> (c.mode == Less <==> restriction == Some("less"))
    ensures c.Accepted? ==> (c.days.Some? <==> days.Number?)
    ensures c.Accepted? && days.Number? ==> c.days.value == days.n
  {
    if data.None? then Rejected(NoData)
    else if |data.value| <= 1 then Rejected(InsufficientData)
    else
      match ParseRestriction(restriction)
      case None => Rejected(InvalidRestriction)
      case Some(mode) =>
        match days
        case NonNumeric => Rejected(DaysNotNumeric)
        case Number(n) => if n < 1 then Rejected(DaysBelowOne) else Accepted(data.value, mode, Some(n))
        case Undefined => Accepted(data.value, mode, None)
  }

  /** The recorded result after the last iteration, app.js:85-89. */
  function Scanned(v: seq<int>, mode: Mode, days: Option<int>): (r: Option<Loss>)
    requires |v| >= 1 && ValidDays(days)
    ensures r.Some? ==> Consistent(v, r.value) && Meets(mode, days, r.value.lowIndex - r.value.highIndex)
  {
    ScanSane(v, mode, days, |v|);
    ScanTo(v, mode, days, |v|).best
  }

  /** `getMaxLoss(data, restriction, days)`. Arguments are rejected exactly
      when they are not acceptable, and a found loss is a genuine drop in the
      prices that meets the restriction. */
  function GetMaxLoss(data: Option<seq<int>>, restriction: Option<string>, days: Days): (r: Outcome)
    ensures r.IsArgumentError() <==> !AcceptedArguments(data, restriction, days)
    ensures !r.IsArgumentError() ==> r.Found? || r.NotFound?
    ensures r.Found? ==> data.Some? && Consistent(data.value, r.result)
    ensures r.Found? && restriction == Some("exact") ==> days.Number? && r.result.lowIndex - r.result.highIndex == days.n
    ensures r.Found? && restriction == Some("less") ==> days.Number? && r.result.lowIndex - r.result.highIndex <= days.n
  {
    match CheckArguments(data, restriction, days)
    case Rejected(error) => error
    case Accepted(v, mode, d) =>
      var best := Scanned(v, mode, d);
      if best.Some? then Found(best.value) else NotFound
  }

  /** Prices of length two or more with 'exact' or 'less' and a `days` of at
      least one are scanned in that mode. */
  lemma NamedRestrictionAccepted(v: seq<int>, n: int)
    requires |v| >= 2 && n >= 1
    ensures CheckArguments(Some(v), Some("exact"), Number(n)) == Accepted(v, Exact, Some(n))
    ensures CheckArguments(Some(v), Some("less"), Number(n)) == Accepted(v, Less, Some(n))
    ensures GetMaxLoss(Some(v), Some("exact"), Number(n)) == (if Scanned(v, Exact, Some(n)).Some? then Found(Scanned(v, Exact, Some(n)).value) else NotFound)
    ensures GetMaxLoss(Some(v), Some("less"), Number(n)) == (if Scanned(v, Less, Some(n)).Some? then Found(Scanned(v, Less, Some(n)).value) else NotFound)
  {
    assert "exact" != "less";
  }
}
