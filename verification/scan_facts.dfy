/** Facts about the scan that hold whatever the restriction. */
module ScanFacts {
  import opened Types
  import opened Spec
  import opened Scan

  /** What holds at the loop head with index `i`: the running high and low
      are prices already read, `maxLoss` is the loss of the recorded result
      (zero while there is none), and the recorded result is a genuine drop
      that meets the restriction. */
  ghost predicate Sane(v: seq<int>, mode: Mode, days: Option<int>, s: ScanState, i: int) {
    && 1 <= i <= |v|
    && 0 <= s.highIndex < i && s.highValue == v[s.highIndex]
    && 0 <= s.lowIndex < i && s.lowValue == v[s.lowIndex]
    && s.maxLoss >= 0
    && (s.best.None? ==> s.maxLoss == 0)
    && (s.best.Some? ==>
          && Consistent(v, s.best.value)
          && s.best.value.loss == s.maxLoss
          && s.best.value.lowIndex < i
          && Meets(mode, days, s.best.value.lowIndex - s.best.value.highIndex))
  }

  /** Whenever the tracked low lies before `i`, the falling branch leaves it
      at or before `i` and leaves the running high alone, so the guard
      `i < lastLowIndex` of the rising branch is false. */
  lemma RisingIsDead(v: seq<int>, mode: Mode, days: Option<int>, s: ScanState, i: int)
    requires 0 <= i < |v| && s.lowIndex < i
    ensures
      var f := Falling(v, mode, days, s, i);
      && f.lowIndex <= i
      && f.highIndex == s.highIndex && f.highValue == s.highValue
      && Rising(v, mode, days, f, i) == f
  {
  }

  /** One iteration keeps `Sane`. */
  lemma StepSane(v: seq<int>, mode: Mode, days: Option<int>, s: ScanState, i: int)
    requires ValidDays(days) && i < |v| && Sane(v, mode, days, s, i)
    ensures Sane(v, mode, days, Step(v, mode, days, s, i), i + 1)
  {
    RisingIsDead(v, mode, days, s, i);
  }

  /** `Sane` holds at every loop head. */
  lemma {:induction false} ScanSane(v: seq<int>, mode: Mode, days: Option<int>, n: int)
    requires 1 <= n <= |v| && ValidDays(days)
    ensures Sane(v, mode, days, ScanTo(v, mode, days, n), n)
  {
    if n > 1 {
      ScanSane(v, mode, days, n - 1);
      StepSane(v, mode, days, ScanTo(v, mode, days, n - 1), n - 1);
    }
  }

  /** In every iteration of an actual scan the rising branch changes nothing,
      so the running high moves only at app.js:74-77 and app.js:80-83. */
  lemma RisingNeverFires(v: seq<int>, mode: Mode, days: Option<int>, i: int)
    requires 1 <= i < |v| && ValidDays(days)
    ensures
      var s := ScanTo(v, mode, days, i);
      var f := Falling(v, mode, days, s, i);
      && Rising(v, mode, days, f, i) == f
      && f.highIndex == s.highIndex && f.highValue == s.highValue
  {
    ScanSane(v, mode, days, i);
    RisingIsDead(v, mode, days, ScanTo(v, mode, days, i), i);
  }
}
