/** The single forward pass of `getMaxLoss` (app.js:29-84), one function per
    block of the loop body. `ScanTo(v, mode, days, n)` is the state at the head
    of the loop at app.js:39 when `i == n`. */
module Scan {
  import opened Types

  /** The variables the loop carries: `maxLoss`, `lastLowIndex`,
      `lastLowValue`, `lastHighIndex`, `lastHighValue` and `result`
      (absent until the first loss is recorded). */
  datatype ScanState = ScanState(
    maxLoss: int,
    lowIndex: int,
    lowValue: int,
    highIndex: int,
    highValue: int,
    best: Option<Loss>)

  /** After validation `days` is undefined or a whole number of at least one. */
  predicate ValidDays(days: Option<int>) {
    days.Some? ==> days.value >= 1
  }

  /** The restriction tests of app.js:43-44 and app.js:59-60 for a distance
      `gap`. A comparison with an undefined `days` is false in JavaScript, so a
      restricted mode without `days` rejects every gap. */
  predicate Meets(mode: Mode, days: Option<int>, gap: int) {
    match mode
    case Unrestricted => true
    case Exact => days.Some? && gap == days.value
    case Less => days.Some? && gap <= days.value
  }

  /** Loop initialisation, app.js:29-33: high and low both start at the first price. */
  function Init(v: seq<int>): ScanState
    requires |v| >= 1
  {
    ScanState(0, 0, v[0], 0, v[0], None)
  }

  /** The falling candidate, app.js:40-56: a drop from the running high to
      the current price is recorded when it beats `maxLoss` and meets the restriction. */
  function Falling(v: seq<int>, mode: Mode, days: Option<int>, s: ScanState, i: int): ScanState
    requires 0 <= i < |v|
  {
    var current := v[i];
    var loss := s.highValue - current;
    if loss > s.maxLoss && s.highIndex < i && Meets(mode, days, i - s.highIndex) then
      s.(maxLoss := loss, lowValue := current, lowIndex := i,
         best := Some(Loss(loss, s.highValue, current, s.highIndex, i)))
    else
      s
  }

  /** The rising candidate, app.js:57-73, exactly as written: it needs the
      tracked low to lie after the current index. */
  function Rising(v: seq<int>, mode: Mode, days: Option<int>, s: ScanState, i: int): ScanState
    requires 0 <= i < |v|
  {
    var current := v[i];
    var loss := current - s.lowValue;
    if loss > s.maxLoss && i < s.lowIndex && Meets(mode, days, s.lowIndex - i) then
      s.(maxLoss := loss, highValue := current, highIndex := i,
         best := Some(Loss(loss, current, s.lowValue, i, s.lowIndex)))
    else
      s
  }

  /** app.js:74-77: a strictly higher price becomes the running high. */
  function RaiseHigh(v: seq<int>, s: ScanState, i: int): ScanState
    requires 0 <= i < |v|
  {
    if s.highValue < v[i] then s.(highValue := v[i], highIndex := i) else s
  }

  /** Window forcing, app.js:80-83: in a restricted mode, once the running
      high is `days - 1` or more steps back, it is moved to index
      `i - days + 1` and its price re-read. The index read lies in `[1, i]`. */
  function ForceWindow(v: seq<int>, mode: Mode, days: Option<int>, s: ScanState, i: int): (r: ScanState)
    requires 0 <= i < |v| && ValidDays(days)
    ensures r == s || (1 <= r.highIndex <= i && r.highValue == v[r.highIndex])
    ensures r.best == s.best && r.maxLoss == s.maxLoss
    ensures r.lowIndex == s.lowIndex && r.lowValue == s.lowValue
  {
    if mode != Unrestricted && days.Some? && i - s.highIndex >= days.value - 1 && i - days.value + 1 > 0 then
      var h := i - days.value + 1;
      s.(highIndex := h, highValue := v[h])
    else
      s
  }

  /** One iteration of the loop body, app.js:40-83, in source order. */
  function Step(v: seq<int>, mode: Mode, days: Option<int>, s: ScanState, i: int): ScanState
    requires 0 <= i < |v| && ValidDays(days)
  {
    var f := Falling(v, mode, days, s, i);
    var g := Rising(v, mode, days, f, i);
    var h := RaiseHigh(v, g, i);
    ForceWindow(v, mode, days, h, i)
  }

  /** The state at the loop head with `i == n`, after iterations `1 .. n-1`. */
  function ScanTo(v: seq<int>, mode: Mode, days: Option<int>, n: int): ScanState
    requires 1 <= n <= |v| && ValidDays(days)
    decreases n
  {
    if n == 1 then Init(v) else Step(v, mode, days, ScanTo(v, mode, days, n - 1), n - 1)
  }
}
