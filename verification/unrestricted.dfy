/** Without a restriction the scan finds the largest drop, and among equal
    drops the first one (app.js:39-56, 74-77, 85-89). */
module Unrestricted {
  import opened Types
  import opened Spec
  import opened Scan
  import opened ScanFacts
  import opened MaxLoss

  /** The running high is the earliest maximum of the prices before `i`. */
  ghost predicate HighIsEarliestMax(v: seq<int>, s: ScanState, i: int)
    requires i <= |v| && 0 <= s.highIndex < i
  {
    && (forall j :: 0 <= j < i ==> v[j] <= s.highValue)
    && (forall j :: 0 <= j < s.highIndex ==> v[j] < s.highValue)
  }

  /** The loop invariant of the unrestricted scan at index `i`. */
  ghost predicate Inv(v: seq<int>, days: Option<int>, s: ScanState, i: int) {
    && Sane(v, Unrestricted, days, s, i)
    && HighIsEarliestMax(v, s, i)
    && BoundsLosses(v, i, s.maxLoss)
    && (s.best.Some? ==> ReachedFirst(v, s.best.value))
  }

  /** Without a restriction an iteration is the falling candidate
      followed by raising the high. */
  lemma StepUnfolds(v: seq<int>, days: Option<int>, s: ScanState, i: int)
    requires ValidDays(days) && 0 <= i < |v| && s.lowIndex < i
    ensures Step(v, Unrestricted, days, s, i) == RaiseHigh(v, Falling(v, Unrestricted, days, s, i), i)
  {
    RisingIsDead(v, Unrestricted, days, s, i);
  }

  /** After an iteration `maxLoss` still bounds every drop seen. */
  lemma StepBounds(v: seq<int>, days: Option<int>, s: ScanState, i: int)
    requires 0 <= s.highIndex < i < |v| && s.highValue == v[s.highIndex]
    requires HighIsEarliestMax(v, s, i) && BoundsLosses(v, i, s.maxLoss)
    ensures BoundsLosses(v, i + 1, RaiseHigh(v, Falling(v, Unrestricted, days, s, i), i).maxLoss)
  {
    var m := Falling(v, Unrestricted, days, s, i).maxLoss;
    assert m >= s.maxLoss && m >= s.highValue - v[i];
    forall j, k | 0 <= j < k < i + 1
      ensures v[j] - v[k] <= m
    {
      if k == i {
        assert v[j] <= s.highValue;
      } else {
        assert v[j] - v[k] <= s.maxLoss;
      }
    }
  }

  /** After an iteration the running high is still the earliest maximum. */
  lemma StepHigh(v: seq<int>, days: Option<int>, s: ScanState, i: int)
    requires 0 <= s.highIndex < i < |v| && s.highValue == v[s.highIndex]
    requires HighIsEarliestMax(v, s, i)
    ensures
      var t := RaiseHigh(v, Falling(v, Unrestricted, days, s, i), i);
      0 <= t.highIndex < i + 1 && HighIsEarliestMax(v, t, i + 1)
  {
    var t := RaiseHigh(v, Falling(v, Unrestricted, days, s, i), i);
    forall j | 0 <= j < i + 1
      ensures v[j] <= t.highValue
    {
      if j < i {
        assert v[j] <= s.highValue;
      }
    }
    forall j | 0 <= j < t.highIndex
      ensures v[j] < t.highValue
    {
      if t.highIndex == s.highIndex {
        assert v[j] < s.highValue;
      } else {
        assert v[j] <= s.highValue;
      }
    }
  }

  /** A result the falling branch records was reached first. */
  lemma StepFirst(v: seq<int>, days: Option<int>, s: ScanState, i: int)
    requires i < |v| && Sane(v, Unrestricted, days, s, i)
    requires HighIsEarliestMax(v, s, i) && BoundsLosses(v, i, s.maxLoss)
    requires s.best.Some? ==> ReachedFirst(v, s.best.value)
    ensures
      var f := Falling(v, Unrestricted, days, s, i);
      f.best.Some? ==> Consistent(v, f.best.value) && ReachedFirst(v, f.best.value)
  {
    var f := Falling(v, Unrestricted, days, s, i);
    if f.best != s.best {
      var r := f.best.value;
      assert r == Loss(s.highValue - v[i], s.highValue, v[i], s.highIndex, i);
      forall j, k | 0 <= j < k < r.lowIndex
        ensures v[j] - v[k] < r.loss
      {
        assert v[j] - v[k] <= s.maxLoss;
      }
    }
  }

  /** One unrestricted iteration keeps `Inv`. */
  lemma StepInv(v: seq<int>, days: Option<int>, s: ScanState, i: int)
    requires ValidDays(days) && i < |v| && Inv(v, days, s, i)
    ensures Inv(v, days, Step(v, Unrestricted, days, s, i), i + 1)
  {
    StepSane(v, Unrestricted, days, s, i);
    StepUnfolds(v, days, s, i);
    StepBounds(v, days, s, i);
    StepHigh(v, days, s, i);
    StepFirst(v, days, s, i);
  }

  /** `Inv` holds at every loop head of an unrestricted scan. */
  lemma {:induction false} ScanInv(v: seq<int>, days: Option<int>, n: int)
    requires 1 <= n <= |v| && ValidDays(days)
    ensures Inv(v, days, ScanTo(v, Unrestricted, days, n), n)
  {
    if n > 1 {
      ScanInv(v, days, n - 1);
      StepInv(v, days, ScanTo(v, Unrestricted, days, n - 1), n - 1);
    }
  }

  /** With no restriction a loss is found exactly when some price is above
      a later one, and the loss found is the first-found largest drop. */
  lemma UnrestrictedOptimal(v: seq<int>, days: Days)
    requires |v| >= 2 && AcceptedArguments(Some(v), None, days)
    ensures GetMaxLoss(Some(v), None, days).Found? <==> HasDecline(v)
    ensures GetMaxLoss(Some(v), None, days).NotFound? <==> !HasDecline(v)
    ensures GetMaxLoss(Some(v), None, days).Found? ==> IsEarliestMaxLoss(v, GetMaxLoss(Some(v), None, days).result)
  {
    var d := if days.Number? then Some(days.n) else None;
    ScanInv(v, d, |v|);
  }

  /** A non-decreasing price sequence has no loss. */
  lemma NonDecreasingNotFound(v: seq<int>, days: Days)
    requires |v| >= 2 && AcceptedArguments(Some(v), None, days)
    requires forall j, k :: 0 <= j < k < |v| ==> v[j] <= v[k]
    ensures GetMaxLoss(Some(v), None, days) == NotFound
  {
    UnrestrictedOptimal(v, days);
  }

  /** The first-found largest drop is unique, so the unrestricted outcome is
      determined by the prices alone. */
  lemma EarliestMaxLossUnique(v: seq<int>, a: Loss, b: Loss)
    requires IsEarliestMaxLoss(v, a) && IsEarliestMaxLoss(v, b)
    ensures a == b
  {
    // Each result's pair is a candidate for the other's bounds.
    assert v[a.highIndex] - v[a.lowIndex] <= b.loss;
    assert v[b.highIndex] - v[b.lowIndex] <= a.loss;
  }

  /** Without a restriction `days` plays no part in the scan. */
  lemma {:induction false} DaysIrrelevantToScan(v: seq<int>, d: int, n: int)
    requires 1 <= n <= |v| && d >= 1
    ensures ScanTo(v, Unrestricted, Some(d), n) == ScanTo(v, Unrestricted, None, n)
  {
    if n > 1 {
      DaysIrrelevantToScan(v, d, n - 1);
    }
  }

  /** A valid `days` without a restriction changes nothing. */
  lemma DaysIgnoredWithoutRestriction(data: Option<seq<int>>, d: int)
    requires d >= 1
    ensures GetMaxLoss(data, None, Number(d)) == GetMaxLoss(data, None, Undefined)
  {
    if data.Some? && |data.value| >= 2 {
      DaysIrrelevantToScan(data.value, d, |data.value|);
    }
  }
}
